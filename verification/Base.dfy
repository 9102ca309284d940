/** Small shared vocabulary. */
module Base {

  datatype Option<+T> = None | Some(value: T)

  /** Every service names its rows by UUID; only equality and the nil value matter here. */
  type Uuid = nat
  const NIL_UUID: Uuid := 0

  /** No element occurs twice. */
  ghost predicate Distinct<T>(s: seq<T>) {
    forall i, j :: 0 <= i < j < |s| ==> s[i] != s[j]
  }

  ghost predicate Increasing(s: seq<nat>) {
    forall i, j :: 0 <= i < j < |s| ==> s[i] < s[j]
  }

  /** A number above every one of a finite set. */
  lemma {:induction false} AboveAll(ids: set<nat>) returns (b: nat)
    ensures forall id :: id in ids ==> id < b
    decreases ids
  {
    if ids == {} {
      b := 0;
    } else {
      var x :| x in ids;
      var c := AboveAll(ids - {x});
      b := if c <= x then x + 1 else c;
      forall id | id in ids ensures id < b {
        if id != x { assert id in ids - {x}; }
      }
    }
  }
}
