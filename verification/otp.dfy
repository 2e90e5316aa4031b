/**
 The six-box one-time-code entry shared by the password-reset and the
 email-verification pages: the per-box input filter, the invariant it keeps
 and the joined code the pages check and send.
 */
module Otp {

  /** The number of boxes. */
  const Width: nat := 6

  /** A box index, as the page renders them: 0 to 5. */
  type Box = i: nat | i < 6

  /** All boxes empty, the pages' initial state. */
  const Blank: seq<string> := ["", "", "", "", "", ""]

  predicate IsDigit(c: char) {
    '0' <= c <= '9'
  }

  /** The input filter: at most one character, and every character an ASCII
      digit (the pattern `^[0-9]*$`). */
  predicate Accepts(v: string) {
    |v| <= 1 && forall c :: c in v ==> IsDigit(c)
  }

  /** A box holds nothing or exactly one digit. */
  predicate IsCell(v: string) {
    v == "" || (|v| == 1 && IsDigit(v[0]))
  }

  /** Six boxes, each empty or one digit. */
  predicate WellFormed(otp: seq<string>) {
    |otp| == Width && forall i :: 0 <= i < |otp| ==> IsCell(otp[i])
  }

  /** Every box holds something. */
  predicate Filled(otp: seq<string>) {
    forall i :: 0 <= i < |otp| ==> otp[i] != ""
  }

  /** The filter admits exactly the values a box may hold. */
  lemma AcceptsIsCell(v: string)
    ensures Accepts(v) <==> IsCell(v)
  {
  }

  /** `handleOtpChange`: a value the filter admits replaces the indexed box;
      any other value is ignored. */
  function Change(otp: seq<string>, i: nat, v: string): (r: seq<string>)
    requires i < |otp|
    ensures |r| == |otp|
    ensures Accepts(v) ==> r[i] == v
    ensures !Accepts(v) ==> r == otp
    ensures forall j :: 0 <= j < |otp| && j != i ==> r[j] == otp[j]
    ensures WellFormed(otp) ==> WellFormed(r)
  {
    AcceptsIsCell(v);
    if Accepts(v) then otp[i := v] else otp
  }

  /** `otp.join('')`. */
  function Join(otp: seq<string>): string
    decreases |otp|
  {
    if otp == [] then "" else otp[0] + Join(otp[1..])
  }

  /** The number of non-empty boxes. */
  function FilledCount(otp: seq<string>): nat
    decreases |otp|
  {
    if otp == [] then 0 else (if otp[0] != "" then 1 else 0) + FilledCount(otp[1..])
  }

  /** On boxes that are each empty or one digit, the joined code has one
      character per non-empty box, and only digits. */
  lemma {:induction false} JoinOfCells(otp: seq<string>)
    requires forall i :: 0 <= i < |otp| ==> IsCell(otp[i])
    ensures |Join(otp)| == FilledCount(otp)
    ensures forall k :: 0 <= k < |Join(otp)| ==> IsDigit(Join(otp)[k])
    decreases |otp|
  {
    if otp != [] {
      assert forall i :: 0 <= i < |otp[1..]| ==> IsCell(otp[1..][i]) by {
        forall i | 0 <= i < |otp[1..]| ensures IsCell(otp[1..][i]) {
          assert otp[1..][i] == otp[i + 1];
        }
      }
      JoinOfCells(otp[1..]);
      assert IsCell(otp[0]);
      var j := Join(otp);
      assert j == otp[0] + Join(otp[1..]);
      forall k | 0 <= k < |j| ensures IsDigit(j[k]) {
        if k < |otp[0]| {
          assert j[k] == otp[0][k];
        } else {
          assert j[k] == Join(otp[1..])[k - |otp[0]|];
        }
      }
    }
  }

  /** At most one count per box, and every box counted exactly when every box
      is filled. */
  lemma {:induction false} FilledCountBound(otp: seq<string>)
    ensures FilledCount(otp) <= |otp|
    ensures FilledCount(otp) == |otp| <==> Filled(otp)
    decreases |otp|
  {
    if otp != [] {
      FilledCountBound(otp[1..]);
      if Filled(otp) {
        assert Filled(otp[1..]) by {
          forall i | 0 <= i < |otp[1..]| ensures otp[1..][i] != "" {
            assert otp[1..][i] == otp[i + 1];
          }
        }
      }
      if FilledCount(otp) == |otp| {
        forall i | 0 <= i < |otp| ensures otp[i] != "" {
          if i > 0 {
            assert otp[i] == otp[1..][i - 1];
          }
        }
      }
    }
  }

  /** The pages' length check `otp.join('').length === 6` holds of well-formed
      boxes exactly when every box is filled, and the code it lets through is
      six digits. */
  lemma CompleteIffFilled(otp: seq<string>)
    requires WellFormed(otp)
    ensures |Join(otp)| == Width <==> Filled(otp)
    ensures forall k :: 0 <= k < |Join(otp)| ==> IsDigit(Join(otp)[k])
  {
    JoinOfCells(otp);
    FilledCountBound(otp);
  }

  /** The initial boxes are well formed and join to the empty code. */
  lemma BlankIsWellFormed()
    ensures WellFormed(Blank)
    ensures Join(Blank) == ""
  {
  }
}
