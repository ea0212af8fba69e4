/**
 * The compound identifier check the four compound JSON routes run before
 * they build a SPARQL query: `re.fullmatch(r"Q\d+", qid)`, with `\d` read as
 * the ASCII digits.
 */
module Compound {
  import opened Wrappers

  predicate IsDigit(c: char) {
    '0' <= c <= '9'
  }

  /** The states of the automaton for `Q\d+`. */
  datatype QidState = Start | AfterQ | InDigits | Reject

  /** One character of input. */
  function QidStep(st: QidState, c: char): QidState {
    match st
    case Start => if c == 'Q' then AfterQ else Reject
    case AfterQ => if IsDigit(c) then InDigits else Reject
    case InDigits => if IsDigit(c) then InDigits else Reject
    case Reject => Reject
  }

  /** The state after reading all of `s`. */
  function QidRun(st: QidState, s: string): QidState
    decreases |s|
  {
    if s == [] then st else QidRun(QidStep(st, s[0]), s[1..])
  }

  /** `is_valid_qid`: the full match ends in the accepting state. */
  predicate IsValidQid(qid: string) {
    QidRun(Start, qid) == InDigits
  }

  /** From a digit state, the rest is accepted exactly when it is all digits. */
  lemma {:induction false} DigitsRun(s: string)
    ensures QidRun(InDigits, s) == InDigits <==> forall i :: 0 <= i < |s| ==> IsDigit(s[i])
    ensures QidRun(Reject, s) == Reject
  {
    if s != [] {
      DigitsRun(s[1..]);
      assert forall i :: 1 <= i < |s| ==> s[i] == s[1..][i - 1];
    }
  }

  /** A qid is valid exactly when it is "Q" followed by one or more digits. */
  lemma ValidQidShape(qid: string)
    ensures IsValidQid(qid) <==> |qid| >= 2 && qid[0] == 'Q' && forall i :: 1 <= i < |qid| ==> IsDigit(qid[i])
  {
    if |qid| >= 2 {
      var rest := qid[2..];
      DigitsRun(rest);
      assert qid[1..][1..] == rest;
      assert forall i :: 2 <= i < |qid| ==> qid[i] == rest[i - 2];
      var second := QidStep(Start, qid[0]);
      assert QidRun(Start, qid) == QidRun(second, qid[1..]);
      assert QidRun(second, qid[1..]) == QidRun(QidStep(second, qid[1]), rest);
    } else if |qid| == 1 {
      assert QidRun(Start, qid) == QidRun(QidStep(Start, qid[0]), []);
    }
  }

  /** The 400 answer of a compound route. */
  datatype BadRequest = BadRequest(message: string)

  /**
   * The guard at the top of each compound route: an invalid identifier is
   * answered before any query exists; a valid one is spliced into the
   * query after `wd:`.
   */
  function CompoundTarget(cwid: string): (r: Result<string, BadRequest>)
    ensures r.Failure? <==> !IsValidQid(cwid)
    ensures r.Failure? ==> r.error == BadRequest("Invalid compound identifier")
  {
    if !IsValidQid(cwid) then Failure(BadRequest("Invalid compound identifier"))
    else Success("wd:" + cwid)
  }

  /**
   * What reaches the query is "wd:Q" and digits: no space, brace, quote or
   * newline that could end the clause.
   */
  lemma CompoundTargetSafe(cwid: string)
    requires CompoundTarget(cwid).Success?
    ensures CompoundTarget(cwid).value == "wd:" + cwid
    ensures forall i :: 0 <= i < |cwid| ==> cwid[i] == 'Q' || IsDigit(cwid[i])
    ensures forall i :: 0 <= i < |cwid| ==> cwid[i] !in {' ', '}', '"', '\n', '<', '>'}
  {
    ValidQidShape(cwid);
  }
}
