/** Option and Result, the failure-carrying values used throughout the model. */
module Wrappers {

  datatype Option<+T> = None | Some(value: T)

  datatype Result<+T, +E> = Ok(value: T) | Err(error: E)

  /** The exceptions the modelled Python code can raise, one constructor per raising site. */
  datatype Error =
    /** `event[key]` on a raw event that lacks the key (KeyError). */
    | MissingKey(key: string)
    /** The opaque time parser rejected the text. */
    | BadTime(text: string)
    /** The opaque date parser rejected the text. */
    | BadDate(text: string)
    /** `instance['room'][1]` on a room label without a colon (IndexError). */
    | NoRoomCode(roomLabel: string)
    /** Creating a Room whose globally unique room_code already belongs to another building (IntegrityError). */
    | RoomCodeTaken(code: string)
    /** `MeetingInstance.clean` rejected the instance (ValidationError), with the two day names of its message. */
    | WeekdayMismatch(dateDay: string, meetingDay: string)
    /** A record whose unique key is already stored (IntegrityError). */
    | DuplicateKey
    /** A record whose foreign key names no stored record (IntegrityError). */
    | MissingRecord
    /** Indexing past the end of a sequence (IndexError). */
    | IndexOutOfRange
    /** `len()` of an object whose `__len__` is negative (ValueError). */
    | NegativeLength
}
