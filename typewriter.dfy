/**
 * The hero-section typewriter of js/main.js: a two-mode machine (typing,
 * deleting) over a list of role strings.  Each tick grows or shrinks the
 * displayed text by one character of the current role and picks the delay
 * before the next tick; the browser timer that re-invokes the tick is
 * replaced by the returned delay.
 */
module Typewriter {
  import opened JsString

  /** Delays in milliseconds, as the constructor and `type()` fix them. */
  const TypingSpeed: nat := 100
  const DeletingSpeed: nat := 50
  const PauseDuration: nat := 2000
  const NextWordDelay: nat := 500

  /** The animation state of one typewriter, as a value. */
  datatype Frame = Frame(roles: seq<string>, index: nat, text: string, deleting: bool)

  /** `n` forced into the range [0, hi]. */
  function Clamp(n: int, hi: nat): nat {
    if n < 0 then 0 else if n > hi then hi else n
  }

  /** JavaScript's `s.substring(0, n)`: the end index is clamped into [0, |s|]. */
  function Substring0(s: string, n: int): (r: string)
    ensures StartsWith(s, r)
    ensures |r| == Clamp(n, |s|)
  {
    if n <= 0 then "" else if n >= |s| then s else s[..n]
  }

  /**
   * One call of `type()`: the new state and the delay handed to the timer.
   * The source reads `roles[currentRoleIndex]` before anything else, so the
   * index must be in range (nothing re-clamps it after a role swap).
   */
  function Step(f: Frame): (r: (Frame, nat))
    requires f.index < |f.roles|
    ensures r.0.roles == f.roles
    // the text is the prefix of the current role one longer or one shorter, clamped
    ensures StartsWith(f.roles[f.index], r.0.text)
    ensures |r.0.text| == Clamp(|f.text| + (if f.deleting then -1 else 1), |f.roles[f.index]|)
    // a typing tick that completes the word starts deleting after a pause
    ensures !f.deleting && r.0.text == f.roles[f.index] ==>
              r.0.deleting && r.0.index == f.index && r.1 == PauseDuration
    // a deleting tick that empties the text moves on to the next role
    ensures f.deleting && r.0.text == "" ==>
              !r.0.deleting && r.0.index == (f.index + 1) % |f.roles| && r.1 == NextWordDelay
    // every other tick keeps mode and role
    ensures !(!f.deleting && r.0.text == f.roles[f.index]) && !(f.deleting && r.0.text == "") ==>
              r.0.deleting == f.deleting && r.0.index == f.index
              && r.1 == (if f.deleting then DeletingSpeed else TypingSpeed)
    // whatever happened, the displayed text is a prefix of the role now selected
    ensures r.0.index < |r.0.roles| && StartsWith(r.0.roles[r.0.index], r.0.text)
  {
    var role := f.roles[f.index];
    var text := if f.deleting then Substring0(role, |f.text| - 1) else Substring0(role, |f.text| + 1);
    if !f.deleting && text == role then
      (Frame(f.roles, f.index, text, true), PauseDuration)
    else if f.deleting && text == "" then
      var next := (f.index + 1) % |f.roles|;
      assert f.roles[next][..0] == text;
      (Frame(f.roles, next, text, false), NextWordDelay)
    else
      (Frame(f.roles, f.index, text, f.deleting), if f.deleting then DeletingSpeed else TypingSpeed)
  }

  /** `k` consecutive ticks: the final state and the total time they wait. */
  function Run(f: Frame, k: nat): (r: (Frame, nat))
    requires f.index < |f.roles|
    ensures r.0.roles == f.roles && r.0.index < |r.0.roles|
    decreases k
  {
    if k == 0 then (f, 0)
    else
      var s := Step(f);
      var rest := Run(s.0, k - 1);
      (rest.0, s.1 + rest.1)
  }

  /** The state a freshly constructed typewriter starts from. */
  function Initial(roles: seq<string>): Frame {
    Frame(roles, 0, "", false)
  }

  /**
   * The states the animation passes through when every role is non-empty:
   * while typing the word is not yet complete, while deleting it is not yet
   * empty, and the text is always a prefix of the current role.
   */
  predicate Typical(f: Frame) {
    && f.index < |f.roles|
    && (forall i :: 0 <= i < |f.roles| ==> f.roles[i] != "")
    && StartsWith(f.roles[f.index], f.text)
    && (f.deleting ==> |f.text| > 0)
    && (!f.deleting ==> |f.text| < |f.roles[f.index]|)
  }

  /** From a typical state, one tick changes the text length by exactly one. */
  lemma StepMovesOneCharacter(f: Frame)
    requires Typical(f)
    ensures Typical(Step(f).0)
    ensures |Step(f).0.text| == if f.deleting then |f.text| - 1 else |f.text| + 1
  {
  }

  /**
   * With non-empty roles, one tick from ANY state whose index is in range
   * (for instance right after the role list was swapped) lands in a typical
   * state: the text is a prefix of the role again.
   */
  lemma StepRecovers(f: Frame)
    requires f.index < |f.roles| && forall i :: 0 <= i < |f.roles| ==> f.roles[i] != ""
    ensures Typical(Step(f).0)
  {
  }

  /** Every state reached from a typical one is typical again. */
  lemma {:induction false} RunStaysTypical(f: Frame, k: nat)
    requires Typical(f)
    ensures Typical(Run(f, k).0)
    decreases k
  {
    if k > 0 {
      StepMovesOneCharacter(f);
      RunStaysTypical(Step(f).0, k - 1);
    }
  }

  /** A role list whose entries are all non-empty yields a typical starting state. */
  lemma InitialIsTypical(roles: seq<string>)
    requires |roles| > 0 && forall i :: 0 <= i < |roles| ==> roles[i] != ""
    ensures Typical(Initial(roles))
  {
  }

  /** One tick followed by the remaining `k - 1`. */
  lemma RunUnfold(f: Frame, k: nat)
    requires f.index < |f.roles|
    ensures Run(f, k + 1).0 == Run(Step(f).0, k).0
    ensures Run(f, k + 1).1 == Step(f).1 + Run(Step(f).0, k).1
  {
  }

  /** Running `a` ticks and then `b` more is running `a + b` ticks. */
  lemma {:induction false} RunAdditive(f: Frame, a: nat, b: nat)
    requires f.index < |f.roles|
    ensures Run(f, a + b).0 == Run(Run(f, a).0, b).0
    ensures Run(f, a + b).1 == Run(f, a).1 + Run(Run(f, a).0, b).1
    decreases a
  {
    if a > 0 {
      var c := a - 1;
      RunAdditive(Step(f).0, c, b);
      RunUnfold(f, c);
      RunUnfold(f, c + b);
      assert a == c + 1 && a + b == c + b + 1;
    } else {
      assert a == 0 && a + b == b;
    }
  }

  /** Two runs back to back, the second from where the first stopped. */
  lemma RunChain(f: Frame, a: nat, b: nat, g: Frame, h: Frame, d: nat, e: nat)
    requires f.index < |f.roles| && Run(f, a) == (g, d) && Run(g, b) == (h, e)
    ensures Run(f, a + b) == (h, d + e)
  {
    RunAdditive(f, a, b);
  }

  /** Typing from `j` characters to the complete word of length n takes k = n - j ticks. */
  lemma {:induction false} TypingPhase(f: Frame, k: nat)
    requires f.index < |f.roles| && !f.deleting && StartsWith(f.roles[f.index], f.text)
    requires k == |f.roles[f.index]| - |f.text| > 0
    ensures Run(f, k) == (Frame(f.roles, f.index, f.roles[f.index], true), TypingSpeed * (k - 1) + PauseDuration)
    decreases k
  {
    var role := f.roles[f.index];
    var (g, d) := Step(f);
    var j := k - 1;
    RunUnfold(f, j);
    if j > 0 {
      TypingPhase(g, j);
    } else {
      assert g.text == role;
    }
  }

  /** Deleting a word of k characters takes k ticks and ends on the next role. */
  lemma {:induction false} DeletingPhase(f: Frame, k: nat)
    requires f.index < |f.roles| && f.deleting && StartsWith(f.roles[f.index], f.text)
    requires k == |f.text| > 0
    ensures Run(f, k) == (Frame(f.roles, (f.index + 1) % |f.roles|, "", false), DeletingSpeed * (k - 1) + NextWordDelay)
    decreases k
  {
    var (g, d) := Step(f);
    var j := k - 1;
    RunUnfold(f, j);
    if j > 0 {
      DeletingPhase(g, j);
    }
  }

  /**
   * A whole word cycle: from the empty text at the start of a role of length
   * n >= 1, 2n ticks type it, pause, delete it and land on the next role,
   * waiting 150n + 2350 ms in total.
   */
  lemma WordCycle(roles: seq<string>, i: nat)
    requires i < |roles| && roles[i] != ""
    ensures var n := |roles[i]|;
      Run(Frame(roles, i, "", false), 2 * n) ==
        (Frame(roles, (i + 1) % |roles|, "", false), 150 * n + 2350)
  {
    var n := |roles[i]|;
    var f := Frame(roles, i, "", false);
    TypingPhase(f, n);
    var g := Frame(roles, i, roles[i], true);
    DeletingPhase(g, n);
    RunChain(f, n, n, g, Frame(roles, (i + 1) % |roles|, "", false),
             TypingSpeed * (n - 1) + PauseDuration, DeletingSpeed * (n - 1) + NextWordDelay);
  }

  /**
   * The loop of roles ["A", "BB"]: "A" (pause), "" (next word), "B", "BB"
   * (pause), "B", "" (next word), and after these six ticks, 5150 ms in all,
   * the typewriter is back where it started.
   */
  lemma TwoRoleLoop()
    ensures Run(Initial(["A", "BB"]), 6) == (Initial(["A", "BB"]), 5150)
  {
    var roles := ["A", "BB"];
    var f0 := Frame(roles, 0, "", false);
    var f1 := Frame(roles, 0, "A", true);
    var f2 := Frame(roles, 1, "", false);
    var f3 := Frame(roles, 1, "B", false);
    var f4 := Frame(roles, 1, "BB", true);
    var f5 := Frame(roles, 1, "B", true);
    assert roles[1][..1] == "B";
    assert Step(f0) == (f1, PauseDuration);
    assert Step(f1) == (f2, NextWordDelay);
    assert Step(f2) == (f3, TypingSpeed);
    assert Step(f3) == (f4, PauseDuration);
    assert Step(f4) == (f5, DeletingSpeed);
    assert Step(f5) == (f0, NextWordDelay);
    assert Run(f0, 6) == (f0, 5150);
  }

  /**
   * The `TypeWriter` object.  The DOM element is not modelled: `Tick`
   * returns the text it writes to the element.
   */
  class TypeWriter {
    var roles: seq<string>
    var currentRoleIndex: nat
    var currentText: string
    var isDeleting: bool

    function State(): Frame
      reads this
    {
      Frame(roles, currentRoleIndex, currentText, isDeleting)
    }

    constructor (roles: seq<string>)
      ensures State() == Initial(roles)
    {
      this.roles := roles;
      currentRoleIndex := 0;
      currentText := "";
      isDeleting := false;
    }

    /** Replaces the role list wholesale; index, text and mode are kept as they are. */
    method UpdateRoles(newRoles: seq<string>)
      modifies this
      ensures roles == newRoles
      ensures currentRoleIndex == old(currentRoleIndex) && currentText == old(currentText)
      ensures isDeleting == old(isDeleting)
    {
      roles := newRoles;
    }

    /** `type()`: one tick; returns the text shown and the delay until the next tick. */
    method Tick() returns (shown: string, delay: nat)
      requires currentRoleIndex < |roles|
      modifies this
      ensures (State(), delay) == Step(old(State()))
      ensures shown == currentText
    {
      var currentRole := roles[currentRoleIndex];
      if isDeleting {
        currentText := Substring0(currentRole, |currentText| - 1);
      } else {
        currentText := Substring0(currentRole, |currentText| + 1);
      }
      shown := currentText;
      delay := if isDeleting then DeletingSpeed else TypingSpeed;
      if !isDeleting && currentText == currentRole {
        delay := PauseDuration;
        isDeleting := true;
      } else if isDeleting && currentText == "" {
        isDeleting := false;
        currentRoleIndex := (currentRoleIndex + 1) % |roles|;
        delay := NextWordDelay;
      }
    }
  }
}
