/** The crash report as a sequence of log writes, and the limits of
    Report.h. Each AddToReport call formats one message into a fixed buffer
    and appends it to the application's daily log; the report is the
    sequence of messages that got through.
 */
module ReportLog {

  /** Capacity given to the symbol lookup for a symbol name. */
  const MAX_NAME_LEN: nat := 1024
  /** The number of frames the stack walk visits at most. */
  const MAX_DUMP_DEPTH: nat := 20
  /** Size of AddToReport's formatting buffer. */
  const MAX_BUF_SIZE: nat := 4096

  /** The messages written so far, oldest first. */
  type Report = seq<string>

  /** AddToReport: `_vsnprintf` into MAX_BUF_SIZE bytes returns a count <= 0
      for an empty message and -1 for one that does not fit, and such a
      message is dropped; every other message is appended whole. */
  function AddToReport(log: Report, msg: string): (r: Report)
    ensures |log| <= |r| <= |log| + 1 && r[..|log|] == log
    ensures |r| == |log| + 1 <==> 0 < |msg| <= MAX_BUF_SIZE
    ensures |r| == |log| + 1 ==> r[|log|] == msg
  {
    if 0 < |msg| <= MAX_BUF_SIZE then log + [msg] else log
  }

  /** AddToReport for each message in turn. */
  function AddAll(log: Report, msgs: seq<string>): (r: Report)
    decreases |msgs|
  {
    if |msgs| == 0 then log else AddAll(AddToReport(log, msgs[0]), msgs[1..])
  }

  /** Messages that fit the buffer are all appended, in order. */
  lemma {:induction false} AddAllFitting(log: Report, msgs: seq<string>)
    requires forall i :: 0 <= i < |msgs| ==> 0 < |msgs[i]| <= MAX_BUF_SIZE
    ensures AddAll(log, msgs) == log + msgs
    decreases |msgs|
  {
    if |msgs| > 0 {
      AddAllFitting(log + [msgs[0]], msgs[1..]);
      assert log + [msgs[0]] + msgs[1..] == log + msgs;
    }
  }

  /** Every message of the report was one of the messages written, never a
      fragment: messages are appended whole or not at all. */
  lemma {:induction false} AddAllKeepsWholeMessages(log: Report, msgs: seq<string>)
    ensures var r := AddAll(log, msgs);
            |log| <= |r| <= |log| + |msgs| && r[..|log|] == log
            && forall k :: |log| <= k < |r| ==> r[k] in msgs && 0 < |r[k]| <= MAX_BUF_SIZE
    decreases |msgs|
  {
    if |msgs| > 0 {
      var next := AddToReport(log, msgs[0]);
      AddAllKeepsWholeMessages(next, msgs[1..]);
      var r := AddAll(log, msgs);
      assert r == AddAll(next, msgs[1..]);
      forall k | |log| <= k < |r|
        ensures r[k] in msgs && 0 < |r[k]| <= MAX_BUF_SIZE
      {
        if k < |next| {
          assert r[k] == r[..|next|][k] == next[k];
        } else {
          assert r[k] in msgs[1..];
        }
      }
      assert r[..|log|] == r[..|next|][..|log|];
    }
  }
}
