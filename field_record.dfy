/** The durable per-session field record of the realtime synchronisation
    engine: the lock table, the value table and the time of the last write
    (the JSON document `field_states.json`, backend/modules/realtime_sync.py). */
module FieldRecord {

  type FieldId = string
  type UserId = string

  /** One entry of the lock table. An empty `lockedBy` stands for a missing
      or empty owner: Python's `not current_owner` treats both alike. */
  datatype FieldLock = FieldLock(lockedBy: UserId, lockTime: int, isActive: bool)

  /** The latest value written to a field. */
  datatype FieldValue = FieldValue(value: string, updatedBy: UserId, updateTime: int)

  datatype FieldState = FieldState(
    fields: map<FieldId, FieldLock>,
    values: map<FieldId, FieldValue>,
    lastUpdate: int)

  /** The record a session starts from when its file is missing, blank or unreadable. */
  function EmptyState(now: int): FieldState
  {
    FieldState(map[], map[], now)
  }
}
