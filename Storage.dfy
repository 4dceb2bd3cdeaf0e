/**
 * One key of the browser's local storage holding a JSON array. Reading never fails:
 * a missing key or a value that does not parse reads as the empty list. A write that
 * throws (quota exceeded, storage disabled) is caught and logged, so it leaves the
 * slot as it was.
 */
module Storage {

  datatype Slot<T> = Absent | Unparsable | Stored(items: seq<T>)

  /** `JSON.parse(localStorage.getItem(key))`, with the error path reading as `[]`. */
  function Read<T>(slot: Slot<T>): (r: seq<T>)
    ensures !slot.Stored? ==> r == []
  {
    if slot.Stored? then slot.items else []
  }

  /** `localStorage.setItem(key, JSON.stringify(items))` inside a try/catch; `ok` is false when it throws. */
  function Write<T>(slot: Slot<T>, items: seq<T>, ok: bool): (r: Slot<T>)
    ensures ok ==> Read(r) == items
    ensures !ok ==> r == slot
  {
    if ok then Stored(items) else slot
  }
}
