/**
  Kubernetes status conditions as the controllers use them: a list, looked up by type (the first match
  wins) and updated in place by type.  Messages carry no decision and are left out.
 */
module Conditions {
  import opened Common

  datatype Truth = IsTrue | IsFalse | IsUnknown

  datatype Condition = Condition(kind: string, status: Truth, reason: string, since: int)

  function Find(cs: seq<Condition>, kind: string): Option<Condition> {
    if cs == [] then None
    else
      var last, before := cs[|cs| - 1], Find(cs[..|cs| - 1], kind);
      if before.Some? then before else if last.kind == kind then Some(last) else None
  }

  /** The transition time only moves when the status does. */
  function Merged(was: Condition, c: Condition): Condition {
    c.(since := if was.status == c.status then was.since else c.since)
  }

  /** Replaces the first condition of the same type. */
  function UpdateFirst(cs: seq<Condition>, c: Condition): seq<Condition> {
    if cs == [] then []
    else
      var n := |cs| - 1;
      if Find(cs[..n], c.kind).Some? then UpdateFirst(cs[..n], c) + [cs[n]]
      else if cs[n].kind == c.kind then cs[..n] + [Merged(cs[n], c)] else cs
  }

  /** The library's update: in place if the type is present, at the end otherwise. */
  function Set(cs: seq<Condition>, c: Condition): seq<Condition> {
    if Find(cs, c.kind).Some? then UpdateFirst(cs, c) else cs + [c]
  }

  lemma {:induction false} FindUpdated(cs: seq<Condition>, c: Condition, kind: string)
    ensures Find(UpdateFirst(cs, c), kind)
         == if kind == c.kind && Find(cs, kind).Some? then Some(Merged(Find(cs, kind).value, c)) else Find(cs, kind)
  {
    if cs != [] {
      var n := |cs| - 1;
      FindUpdated(cs[..n], c, kind);
      var after := UpdateFirst(cs, c);
      if Find(cs[..n], c.kind).Some? {
        assert after[..|after| - 1] == UpdateFirst(cs[..n], c);
      } else {
        assert after[..|after| - 1] == cs[..n];
      }
    }
  }

  /**
    After an update its type is found with the new status and reason, and with the new time only if the status
    has moved; every other type is found as before.
   */
  lemma FindAfterSet(cs: seq<Condition>, c: Condition, kind: string)
    ensures var found := Find(Set(cs, c), kind);
            if kind == c.kind then
              && found.Some? && found.value.status == c.status && found.value.reason == c.reason
              && found.value.since == (if Find(cs, kind).Some? && Find(cs, kind).value.status == c.status
                                       then Find(cs, kind).value.since else c.since)
            else found == Find(cs, kind)
  {
    if Find(cs, c.kind).Some? {
      FindUpdated(cs, c, kind);
    } else {
      assert (cs + [c])[..|cs|] == cs;
    }
  }

  /** No condition of another type is touched, found or not. */
  lemma OthersStay(cs: seq<Condition>, c: Condition, x: Condition)
    requires x.kind != c.kind
    ensures multiset(Set(cs, c))[x] == multiset(cs)[x]
  {
    if Find(cs, c.kind).Some? {
      OthersStayUpdated(cs, c, x);
    }
  }

  lemma {:induction false} OthersStayUpdated(cs: seq<Condition>, c: Condition, x: Condition)
    requires x.kind != c.kind
    ensures multiset(UpdateFirst(cs, c))[x] == multiset(cs)[x]
  {
    if cs != [] {
      var n := |cs| - 1;
      OthersStayUpdated(cs[..n], c, x);
      assert cs == cs[..n] + [cs[n]];
    }
  }

  /** Some condition of the type is true, wherever it stands in the list. */
  predicate AnyTrue(cs: seq<Condition>, kind: string) {
    cs != [] &&
    (AnyTrue(cs[..|cs| - 1], kind) || (cs[|cs| - 1].kind == kind && cs[|cs| - 1].status.IsTrue?))
  }

  /** A true condition of the type stands behind the one that lookups and updates reach. */
  predicate HiddenTrue(cs: seq<Condition>, kind: string) {
    cs != [] &&
    var last, before := cs[|cs| - 1], cs[..|cs| - 1];
    HiddenTrue(before, kind) || (last.kind == kind && last.status.IsTrue? && Find(before, kind).Some?)
  }

  predicate FoundTrue(cs: seq<Condition>, kind: string) {
    Find(cs, kind).Some? && Find(cs, kind).value.status.IsTrue?
  }

  lemma {:induction false} AnyTrueIsFoundOrHidden(cs: seq<Condition>, kind: string)
    ensures AnyTrue(cs, kind) <==> FoundTrue(cs, kind) || HiddenTrue(cs, kind)
  {
    if cs != [] {
      AnyTrueIsFoundOrHidden(cs[..|cs| - 1], kind);
    }
  }

  lemma {:induction false} UpdateHidesNothing(cs: seq<Condition>, c: Condition, kind: string)
    ensures HiddenTrue(UpdateFirst(cs, c), kind) <==> HiddenTrue(cs, kind)
  {
    if cs != [] {
      var n := |cs| - 1;
      UpdateHidesNothing(cs[..n], c, kind);
      FindUpdated(cs[..n], c, kind);
      var after := UpdateFirst(cs, c);
      if Find(cs[..n], c.kind).Some? {
        assert after[..|after| - 1] == UpdateFirst(cs[..n], c);
      } else {
        assert after[..|after| - 1] == cs[..n];
      }
    }
  }

  /** Updates neither reach nor create hidden conditions. */
  lemma HiddenAfterSet(cs: seq<Condition>, c: Condition, kind: string)
    ensures HiddenTrue(Set(cs, c), kind) <==> HiddenTrue(cs, kind)
  {
    if Find(cs, c.kind).Some? {
      UpdateHidesNothing(cs, c, kind);
    } else {
      assert (cs + [c])[..|cs|] == cs;
    }
  }

  /** At most one condition of each type, as the API server keeps a list keyed by type. */
  predicate OneOfEach(cs: seq<Condition>) {
    cs == [] || (OneOfEach(cs[..|cs| - 1]) && Find(cs[..|cs| - 1], cs[|cs| - 1].kind).None?)
  }

  lemma {:induction false} NothingHidden(cs: seq<Condition>, kind: string)
    requires OneOfEach(cs)
    ensures !HiddenTrue(cs, kind)
  {
    if cs != [] {
      NothingHidden(cs[..|cs| - 1], kind);
    }
  }

  /** An update keeps the list keyed by type. */
  lemma SetKeepsOneOfEach(cs: seq<Condition>, c: Condition)
    requires OneOfEach(cs)
    ensures OneOfEach(Set(cs, c))
  {
    if Find(cs, c.kind).Some? {
      UpdateKeepsOneOfEach(cs, c);
    } else {
      assert (cs + [c])[..|cs|] == cs;
    }
  }

  lemma {:induction false} UpdateKeepsOneOfEach(cs: seq<Condition>, c: Condition)
    requires OneOfEach(cs)
    ensures OneOfEach(UpdateFirst(cs, c))
  {
    if cs != [] {
      var n := |cs| - 1;
      var after := UpdateFirst(cs, c);
      if Find(cs[..n], c.kind).Some? {
        UpdateKeepsOneOfEach(cs[..n], c);
        FindUpdated(cs[..n], c, cs[n].kind);
        assert after[..|after| - 1] == UpdateFirst(cs[..n], c);
      } else {
        assert after[..|after| - 1] == cs[..n];
      }
    }
  }
}
