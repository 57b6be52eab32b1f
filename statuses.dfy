/**
 * The status record of one probe (healthz/status.go): how a check's outcome
 * is classified into an error message and a structured error, the sentinel
 * returned for unknown probe names, and the one-line rendering.
 */
module Statuses {
  import opened Wrappers
  import Strings

  /** A Go `error` value, known only by the text its `Error()` method returns. */
  datatype Err = Err(text: string)

  /** A wall-clock reading (`time.Time`); only stored and rendered, never compared. */
  datatype Time = Time(nanos: int)

  /**
   * One probe's latest outcome. `errMsg` is the text published as JSON,
   * `err` the structured cause (`None` stands for Go's nil).
   */
  datatype Status = Status(
    tag: string,
    rcode: int,
    answer: string,
    errMsg: string,
    time: Time,
    err: Option<Err>)

  /** Every record the package builds keeps the published text and the cause in step. */
  predicate WellFormed(s: Status) {
    && (s.err.None? ==> s.errMsg == "")
    && (s.err.Some? ==> s.errMsg == s.err.value.text)
  }

  /** A Go map lookup in `dns.RcodeToString`: a code without a name reads as "". */
  function RcodeText(names: map<int, string>, code: int): string {
    if code in names then names[code] else ""
  }

  /**
   * `Status.Error()`: the structured error. On every record the package builds,
   * its text is exactly the published `errMsg`.
   */
  function Error(s: Status): (e: Option<Err>)
    ensures WellFormed(s) && e.Some? ==> e.value.text == s.errMsg
    ensures WellFormed(s) && s.errMsg != "" ==> e.Some?
  {
    s.err
  }

  /**
   * `newStatus`: a transport error wins whatever the code; otherwise a non-zero
   * response code is an error named after the code; otherwise the record is
   * healthy. `names` is the library's code-to-name table.
   */
  function NewStatus(tag: string, code: int, ans: string, er: Option<Err>, now: Time, names: map<int, string>): (s: Status)
    ensures s.tag == tag && s.rcode == code && s.answer == ans && s.time == now
    ensures er.Some? ==> s.errMsg == er.value.text && Error(s) == er
    ensures er.None? && code != 0 ==> s.errMsg == RcodeText(names, code) && Error(s) == Some(Err(s.errMsg))
    ensures er.None? && code == 0 ==> s.errMsg == "" && Error(s) == None
    ensures Error(s).None? <==> er.None? && code == 0
    ensures WellFormed(s)
  {
    var s := Status(tag, code, ans, "", now, None);
    if er.Some? then
      s.(errMsg := er.value.text, err := er)
    else if code != 0 then
      s.(errMsg := RcodeText(names, code), err := Some(Err(RcodeText(names, s.rcode))))
    else
      s
  }

  /** The text of the error `statusNotFound` builds. */
  function NotFoundText(tag: string): string {
    "Probe '" + tag + "' not found"
  }

  /** `statusNotFound`: the sentinel returned for a name that has no entry. */
  function StatusNotFound(tag: string, now: Time): (s: Status)
    ensures s.tag == tag && s.rcode == 0 && s.answer == "Not Found" && s.time == now
    ensures s.errMsg == NotFoundText(tag) && Error(s) == Some(Err(s.errMsg))
    ensures WellFormed(s)
  {
    var e := Err(NotFoundText(tag));
    Status(tag, 0, "Not Found", e.text, now, Some(e))
  }

  /**
   * The not-found sentinel is never mistaken for a stored placeholder or any
   * other healthy record: it always carries an error.
   */
  lemma NotFoundIsNotHealthy(tag: string, code: int, ans: string, now: Time, later: Time, names: map<int, string>)
    ensures StatusNotFound(tag, later) != NewStatus(tag, code, ans, None, now, names)
    ensures Error(StatusNotFound(tag, later)).Some?
    ensures |StatusNotFound(tag, later).errMsg| > 0
  {
  }

  /** The part of the rendering after the response code. */
  function Message(s: Status): string {
    if s.err.None? then s.answer else s.answer + ": " + s.err.value.text
  }

  function EndsWith(s: string, suffix: string): bool {
    |suffix| <= |s| && s[|s| - |suffix|..] == suffix
  }

  /**
   * `Status.String`: `[tag] Status at <time>: <rcode> - <msg>`, where `msg` is
   * the answer alone for a healthy record and `<answer>: <error>` otherwise.
   * `showTime` renders a `Time`.
   */
  function String(s: Status, showTime: Time -> string): (r: string)
    ensures |r| == |s.tag| + |showTime(s.time)| + |Strings.IntText(s.rcode)| + |Message(s)| + 18
    ensures r[..|s.tag| + 2] == "[" + s.tag + "]"
    ensures r[|s.tag| + 2..|r| - |" - " + Message(s)|]
         == " Status at " + showTime(s.time) + ": " + Strings.IntText(s.rcode)
    ensures Error(s).None? ==> EndsWith(r, " - " + s.answer)
    ensures Error(s).Some? ==> EndsWith(r, " - " + s.answer + ": " + Error(s).value.text)
  {
    var open := "[" + s.tag + "]";
    var middle := " Status at " + showTime(s.time) + ": " + Strings.IntText(s.rcode);
    var tail := " - " + Message(s);
    assert (open + middle + tail)[..|open|] == open;
    assert (open + middle + tail)[|open + middle|..] == tail;
    assert (open + middle + tail)[|open|..|open + middle|] == middle;
    open + middle + tail
  }
}
