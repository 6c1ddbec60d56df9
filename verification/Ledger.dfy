/** A ledger of things that each have exactly one place: at home, on the list of one
    thread that has taken them out, or finished. */
module Ledgers {
  import opened Common

  type Tid = nat
  type Item = nat

  datatype Ledger = Ledger(all: set<Item>, home: set<Item>, done: seq<Item>, lists: map<Tid, seq<Item>>)

  function ListOf(b: Ledger, t: Tid): seq<Item> { if t in b.lists then b.lists[t] else [] }

  lemma NoDupConcat(a: seq<nat>, b: seq<nat>)
    requires NoDup(a) && NoDup(b) && forall x: nat :: x in a ==> x !in b
    ensures NoDup(a + b)
  {
    forall i, j | 0 <= i < j < |a + b| ensures (a + b)[i] != (a + b)[j] {
      if i < |a| <= j { assert a[i] in a && b[j - |a|] in b; }
    }
  }

  /** Item x is on the list of thread t. */
  predicate On(b: Ledger, t: Tid, x: Item) { x in ListOf(b, t) }

  ghost predicate OnePlace(b: Ledger) {
    && b.home <= b.all
    && NoDup(b.done)
    && (forall x :: x in b.done ==> x in b.all && x !in b.home)
    && (forall t :: NoDup(ListOf(b, t)))
    && (forall t, x :: On(b, t, x) ==> x in b.all && x !in b.home && x !in b.done)
    && (forall t, u, x :: On(b, t, x) && On(b, u, x) ==> t == u)
    && (forall x :: x in b.all ==> x in b.home || x in b.done || exists t :: On(b, t, x))
  }

  /** Thread t moves without moving items. */
  ghost predicate Same(b: Ledger, t: Tid, b': Ledger) {
    b' == b.(lists := b.lists[t := ListOf(b, t)])
  }

  ghost predicate Enters(b: Ledger, t: Tid, b': Ledger, x: Item) {
    x !in b.all && b' == b.(all := b.all + {x}, home := b.home + {x}, lists := b.lists[t := ListOf(b, t)])
  }

  ghost predicate TakesOut(b: Ledger, t: Tid, b': Ledger, out: seq<Item>) {
    && NoDup(out) && (forall x :: x in out ==> x in b.home)
    && b' == b.(home := b'.home, lists := b.lists[t := ListOf(b, t) + out])
    && (forall x :: x in b'.home <==> x in b.home && x !in out)
  }

  ghost predicate Finishes(b: Ledger, t: Tid, b': Ledger) {
    var l := ListOf(b, t);
    |l| > 0 && b' == b.(done := b.done + [l[0]], lists := b.lists[t := l[1..]])
  }

  ghost predicate Moves(b: Ledger, t: Tid, b': Ledger) {
    || Same(b, t, b')
    || (exists x :: Enters(b, t, b', x))
    || (exists out :: TakesOut(b, t, b', out))
    || Finishes(b, t, b')
  }

  lemma {:induction false} SameKeeps(b: Ledger, t: Tid, b': Ledger)
    requires OnePlace(b) && Same(b, t, b')
    ensures OnePlace(b')
  {
    assert forall u :: ListOf(b', u) == ListOf(b, u);
    assert forall u, x :: On(b', u, x) <==> On(b, u, x);
  }

  lemma {:induction false} EntersKeeps(b: Ledger, t: Tid, b': Ledger, x: Item)
    requires OnePlace(b) && Enters(b, t, b', x)
    ensures OnePlace(b')
  {
    assert forall u :: ListOf(b', u) == ListOf(b, u);
    assert forall u, y :: On(b', u, y) <==> On(b, u, y);
  }

  lemma {:induction false} TakesOutKeeps(b: Ledger, t: Tid, b': Ledger, out: seq<Item>)
    requires OnePlace(b) && TakesOut(b, t, b', out)
    ensures OnePlace(b')
  {
    assert forall u :: u != t ==> ListOf(b', u) == ListOf(b, u);
    assert forall u, x :: On(b', u, x) <==> On(b, u, x) || (u == t && x in out);
    forall x: Item | x in ListOf(b, t) ensures x !in out {
      assert On(b, t, x);
    }
    NoDupConcat(ListOf(b, t), out);
    forall x | x in b'.all && x !in b'.home && x !in b'.done ensures exists u :: On(b', u, x) {
      if x in out {
        assert On(b', t, x);
      } else {
        var u :| On(b, u, x);
        assert On(b', u, x);
      }
    }
  }

  lemma {:induction false} FinishesKeeps(b: Ledger, t: Tid, b': Ledger)
    requires OnePlace(b) && Finishes(b, t, b')
    ensures OnePlace(b')
  {
    var l := ListOf(b, t);
    assert On(b, t, l[0]);
    assert forall u :: u != t ==> ListOf(b', u) == ListOf(b, u);
    assert forall u, x :: On(b', u, x) <==> On(b, u, x) && !(u == t && x == l[0]);
    forall x | x in b'.all && x !in b'.home && x !in b'.done ensures exists u :: On(b', u, x) {
      var u :| On(b, u, x);
      assert On(b', u, x);
    }
  }

  lemma {:induction false} MovesKeep(b: Ledger, t: Tid, b': Ledger)
    requires OnePlace(b) && Moves(b, t, b')
    ensures OnePlace(b')
  {
    if Same(b, t, b') {
      SameKeeps(b, t, b');
    } else if x :| Enters(b, t, b', x) {
      EntersKeeps(b, t, b', x);
    } else if Finishes(b, t, b') {
      FinishesKeeps(b, t, b');
    } else {
      var out :| TakesOut(b, t, b', out);
      TakesOutKeeps(b, t, b', out);
    }
  }

  /** What comes home is new. */
  lemma MovesTakeIn(b: Ledger, t: Tid, b': Ledger)
    requires Moves(b, t, b')
    ensures b.all <= b'.all && forall x: Item :: x in b'.home ==> x in b.home || x !in b.all
  {
  }
}
