/**
 * `validate`: one pass over the messages in input order, keeping the codes and
 * the names seen so far, stopping at the first message that breaks a rule.
 */
module Validator {
  import opened Messages
  import opened Patterns

  datatype Option<T> = None | Some(value: T)

  /** The four rules, in the order they are checked for each message. */
  datatype Kind = CodeShape | DuplicateCode | NameShape | DuplicateName

  /**
   * The error `validate` returns: the position of the offending message, the
   * rule it breaks, and the value the error text quotes (the message's code for
   * a repeated code, its name otherwise).
   */
  datatype Violation = Violation(index: nat, kind: Kind, subject: string)

  datatype Outcome = Pass | Fail(violation: Violation)

  /** The value quoted by the error text of rule `k` for message `m`. */
  function Subject(m: Message, k: Kind): string {
    if k == DuplicateCode then m.code else m.name
  }

  /** The codes of the first `n` messages: the `codes` map after `n` rounds. */
  function CodesBefore(ms: seq<Message>, n: nat): set<string>
    requires n <= |ms|
  {
    set j | 0 <= j < n :: ms[j].code
  }

  /** The names of the first `n` messages: the `names` map after `n` rounds. */
  function NamesBefore(ms: seq<Message>, n: nat): set<string>
    requires n <= |ms|
  {
    set j | 0 <= j < n :: ms[j].name
  }

  /**
   * The first rule that message `i` breaks, given the messages before it:
   * code shape, then repeated code, then name shape, then repeated name.
   */
  function Fault(ms: seq<Message>, i: nat): Option<Kind>
    requires i < |ms|
  {
    var m := ms[i];
    if !IsCode(m.code) then Some(CodeShape)
    else if m.code in CodesBefore(ms, i) then Some(DuplicateCode)
    else if !IsName(m.name) then Some(NameShape)
    else if m.name in NamesBefore(ms, i) then Some(DuplicateName)
    else None
  }

  /** The outcome of checking messages `i..` in order. */
  function ScanFrom(ms: seq<Message>, i: nat): Outcome
    requires i <= |ms|
    decreases |ms| - i
  {
    if i == |ms| then Pass
    else match Fault(ms, i)
      case Some(k) => Fail(Violation(i, k, Subject(ms[i], k)))
      case None => ScanFrom(ms, i + 1)
  }

  /** What `validate` returns for `ms`. */
  function Verdict(ms: seq<Message>): Outcome {
    ScanFrom(ms, 0)
  }

  /** `validate` as the source runs it, with `codes` and `names` as growing sets. */
  method Validate(ms: seq<Message>) returns (r: Outcome)
    ensures r == Verdict(ms)
  {
    var codes: set<string> := {};
    var names: set<string> := {};
    var i := 0;
    while i < |ms|
      invariant i <= |ms|
      invariant codes == CodesBefore(ms, i)
      invariant names == NamesBefore(ms, i)
      invariant Verdict(ms) == ScanFrom(ms, i)
    {
      var m := ms[i];
      if !IsCode(m.code) {
        return Fail(Violation(i, CodeShape, m.name));
      }
      if m.code in codes {
        return Fail(Violation(i, DuplicateCode, m.code));
      }
      codes := codes + {m.code};
      if !IsName(m.name) {
        return Fail(Violation(i, NameShape, m.name));
      }
      if m.name in names {
        return Fail(Violation(i, DuplicateName, m.name));
      }
      names := names + {m.name};
      assert CodesBefore(ms, i + 1) == CodesBefore(ms, i) + {m.code};
      assert NamesBefore(ms, i + 1) == NamesBefore(ms, i) + {m.name};
      i := i + 1;
    }
    return Pass;
  }

  /** Every code has the code shape, every name the name shape, and neither repeats. */
  ghost predicate WellFormed(ms: seq<Message>) {
    (forall i :: 0 <= i < |ms| ==> IsCode(ms[i].code) && IsName(ms[i].name)) &&
    (forall i, j :: 0 <= i < j < |ms| ==> ms[i].code != ms[j].code && ms[i].name != ms[j].name)
  }

  /** `v` is the first rule broken, by the first message that breaks one. */
  ghost predicate IsFirstViolation(ms: seq<Message>, v: Violation) {
    v.index < |ms| &&
    Fault(ms, v.index) == Some(v.kind) &&
    v.subject == Subject(ms[v.index], v.kind) &&
    forall k :: 0 <= k < v.index ==> Fault(ms, k) == None
  }

  lemma {:induction false} ScanFromSpec(ms: seq<Message>, i: nat)
    requires i <= |ms|
    ensures ScanFrom(ms, i) == Pass <==> forall k :: i <= k < |ms| ==> Fault(ms, k) == None
    ensures ScanFrom(ms, i).Fail? ==>
      var v := ScanFrom(ms, i).violation;
      i <= v.index < |ms| &&
      Fault(ms, v.index) == Some(v.kind) &&
      v.subject == Subject(ms[v.index], v.kind) &&
      forall k :: i <= k < v.index ==> Fault(ms, k) == None
    decreases |ms| - i
  {
    if i < |ms| && Fault(ms, i).None? {
      ScanFromSpec(ms, i + 1);
    }
  }

  /** The messages pass every per-message check exactly when they are well formed. */
  lemma NoFaultIffWellFormed(ms: seq<Message>)
    ensures (forall k :: 0 <= k < |ms| ==> Fault(ms, k) == None) <==> WellFormed(ms)
  {
    if forall k :: 0 <= k < |ms| ==> Fault(ms, k) == None {
      forall i | 0 <= i < |ms| ensures IsCode(ms[i].code) && IsName(ms[i].name) {
        assert Fault(ms, i) == None;
      }
      forall i, j | 0 <= i < j < |ms|
        ensures ms[i].code != ms[j].code && ms[i].name != ms[j].name
      {
        assert Fault(ms, j) == None;
        assert ms[i].code in CodesBefore(ms, j);
        assert ms[i].name in NamesBefore(ms, j);
      }
    }
  }

  /** `validate` succeeds exactly on well-formed input. */
  lemma VerdictPassIffWellFormed(ms: seq<Message>)
    ensures Verdict(ms) == Pass <==> WellFormed(ms)
  {
    ScanFromSpec(ms, 0);
    NoFaultIffWellFormed(ms);
  }

  /** An empty list always passes. */
  lemma EmptyPasses()
    ensures Verdict([]) == Pass
  {
  }

  /** A failure reports the first violation, and the first violation is what is reported. */
  lemma VerdictIsFirstViolation(ms: seq<Message>, v: Violation)
    ensures Verdict(ms) == Fail(v) <==> IsFirstViolation(ms, v)
  {
    ScanFromSpec(ms, 0);
    if IsFirstViolation(ms, v) {
      assert Verdict(ms) != Pass;
      var w := Verdict(ms).violation;
      assert IsFirstViolation(ms, w);
      assert w.index == v.index;
    }
  }

  /** The failure, if any, comes no later than message `k` when `k` breaks a rule. */
  lemma FaultAtFails(ms: seq<Message>, k: nat)
    requires k < |ms| && Fault(ms, k).Some?
    ensures Verdict(ms).Fail?
    ensures Verdict(ms).violation.index <= k
    ensures Verdict(ms).violation.index == k ==>
      Verdict(ms).violation.kind == Fault(ms, k).value &&
      Verdict(ms).violation.subject == Subject(ms[k], Fault(ms, k).value)
  {
    ScanFromSpec(ms, 0);
  }

  /** A badly shaped code stops validation at that message, quoting its name, unless an earlier violation does. */
  lemma BadCodeFails(ms: seq<Message>, k: nat)
    requires k < |ms| && !IsCode(ms[k].code)
    ensures Verdict(ms).Fail?
    ensures Verdict(ms).violation.index <= k
    ensures Verdict(ms).violation.index == k ==> Verdict(ms).violation == Violation(k, CodeShape, ms[k].name)
  {
    FaultAtFails(ms, k);
  }

  /** A repeated code fails at the second occurrence at the latest, whatever the names. */
  lemma DuplicateCodeFails(ms: seq<Message>, j: nat, k: nat)
    requires j < k < |ms| && ms[j].code == ms[k].code
    ensures Verdict(ms).Fail?
    ensures Verdict(ms).violation.index <= k
    ensures Verdict(ms).violation.index == k ==> Verdict(ms).violation == Violation(k, DuplicateCode, ms[k].code)
  {
    if Fault(ms, j).Some? {
      FaultAtFails(ms, j);
    } else {
      // Message j passed its code-shape check, so message k has a well-shaped, repeated code.
      assert ms[j].code in CodesBefore(ms, k);
      assert Fault(ms, k) == Some(DuplicateCode);
      FaultAtFails(ms, k);
    }
  }

  /** A badly shaped name fails at that message or earlier; at it, with the name-shape error when its code passed both checks. */
  lemma BadNameFails(ms: seq<Message>, k: nat)
    requires k < |ms| && !IsName(ms[k].name)
    ensures Verdict(ms).Fail?
    ensures Verdict(ms).violation.index <= k
    ensures Verdict(ms).violation.index == k && IsCode(ms[k].code) && ms[k].code !in CodesBefore(ms, k) ==>
      Verdict(ms).violation == Violation(k, NameShape, ms[k].name)
  {
    FaultAtFails(ms, k);
  }

  /**
   * A repeated name fails at the second occurrence at the latest, whatever the
   * codes; at it, with the repeated-name error when its code passed both checks.
   */
  lemma DuplicateNameFails(ms: seq<Message>, j: nat, k: nat)
    requires j < k < |ms| && ms[j].name == ms[k].name
    ensures Verdict(ms).Fail?
    ensures Verdict(ms).violation.index <= k
    ensures Verdict(ms).violation.index == k && IsCode(ms[k].code) && ms[k].code !in CodesBefore(ms, k) ==>
      Verdict(ms).violation == Violation(k, DuplicateName, ms[k].name)
  {
    if Fault(ms, j).Some? {
      FaultAtFails(ms, j);
    } else {
      // Message j passed its name-shape check, so message k breaks a rule:
      // one of its code checks, or else the repeated name.
      assert ms[j].name in NamesBefore(ms, k);
      assert Fault(ms, k).Some?;
      FaultAtFails(ms, k);
    }
  }

  /** A message with only a code and a name filled in, for the examples below. */
  function Msg(name: string, code: string): Message {
    Message(name, code, "Error", "", "", "", [])
  }

  /**
   * Within one message the code is checked before the name: a repeated code
   * with a badly shaped name reports the repeated code.
   */
  lemma CheckOrderExample()
    ensures Verdict([Msg("Foo", "IST0001"), Msg("bad", "IST0001")])
      == Fail(Violation(1, DuplicateCode, "IST0001"))
  {
  }

  /** A three-digit code fails on its shape; two messages named Bar fail on the name. */
  lemma ShapeAndNameExamples()
    ensures Verdict([Msg("Foo", "IST001")]) == Fail(Violation(0, CodeShape, "Foo"))
    ensures Verdict([Msg("Bar", "IST0001"), Msg("Bar", "IST0002")])
      == Fail(Violation(1, DuplicateName, "Bar"))
  {
  }
}
