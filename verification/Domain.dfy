/** The values that flow through the pipeline: transcripts, evidence and the meeting representation. */
module Domain {
  datatype Option<+T> = None | Some(value: T) {
    function GetOr(default: T): T {
      if Some? then value else default
    }

    /** The first of two options that carries a value. */
    function Or(other: Option<T>): Option<T> {
      if Some? then this else other
    }
  }

  datatype Result<+T, +E> = Ok(value: T) | Err(error: E) {
    /** Another result, unless this one failed. */
    function AndThen<U>(next: Result<U, E>): Result<U, E> {
      match this
      case Ok(_) => next
      case Err(error) => Err(error)
    }
  }

  /** A 64-bit float in seconds, without rounding: every real, both infinities, and not-a-number. */
  datatype Time = NaN | NegInf | Finite(seconds: real) | PosInf

  /** The order on floats; false whenever a side is not a number. */
  predicate AtMost(a: Time, b: Time) {
    a != NaN && b != NaN &&
    (a == NegInf || b == PosInf || (a.Finite? && b.Finite? && a.seconds <= b.seconds))
  }

  /** `f64::max`: the other operand when one is not a number. */
  function Max(a: Time, b: Time): (m: Time)
    ensures a != NaN && b != NaN ==> (m == a || m == b) && AtMost(a, m) && AtMost(b, m)
    ensures a == NaN ==> m == b
    ensures b == NaN ==> m == a
  {
    if a == NaN then b else if b == NaN then a else if AtMost(a, b) then b else a
  }

  const ZERO := Finite(0.0)

  datatype Segment = Segment(
    speaker: Option<string>,
    start: Time,
    end: Time,
    text: string,
    language: Option<string>,
    confidence: Option<Time>)

  type Transcript = seq<Segment>

  datatype Evidence = Evidence(
    quote: string,
    speaker: Option<string>,
    start: Option<Time>,
    end: Option<Time>,
    chunkId: Option<string>)

  /** A decision, topic, open question or risk: its text, its optional side note, its evidence. */
  datatype Item = Item(text: string, note: Option<string>, evidence: seq<Evidence>)

  datatype ActionItem = ActionItem(
    description: string,
    owner: Option<string>,
    deadline: Option<string>,
    evidence: seq<Evidence>)

  datatype Participant = Participant(id: string, displayName: Option<string>)

  /** Everything found in a meeting, in one chunk of it, or merged over all its chunks. */
  datatype Findings = Findings(
    topics: seq<Item>,
    decisions: seq<Item>,
    actions: seq<ActionItem>,
    questions: seq<Item>,
    risks: seq<Item>)

  datatype MeetingIr = MeetingIr(
    summary: string,
    participants: seq<Participant>,
    findings: Findings)
}
