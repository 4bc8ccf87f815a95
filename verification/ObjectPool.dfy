/**
 A pool of reusable objects shared by concurrent calls (Go's sync.Pool as internal/router/types.go uses
 it): who holds what, and that an object is never both held and free.
 */
module ObjectPool {
  import opened Text

  type Ref = nat

  /** The objects alive, with their contents, and those lying in the pool; putting an object back
      twice would make it lie there twice. */
  datatype Pool<T> = Pool(objects: map<Ref, T>, free: multiset<Ref>)

  /** Get: an object lying in the pool, with whatever it last held, or a new one. */
  predicate CanTake<T>(p: Pool<T>, r: Ref) {
    (r in p.free && r in p.objects) || r !in p.objects
  }

  function Take<T>(p: Pool<T>, r: Ref, blank: T): Pool<T> {
    if r in p.free then p.(free := p.free - multiset{r}) else p.(objects := p.objects[r := blank])
  }

  /** Put, after a last write to the object. */
  function Give<T>(p: Pool<T>, r: Ref, last: T): Pool<T> {
    Pool(p.objects[r := last], p.free + multiset{r})
  }

  function Update<T>(p: Pool<T>, r: Ref, value: T): Pool<T> {
    p.(objects := p.objects[r := value])
  }

  /** The collector may empty the pool of an object nobody holds. */
  function Discard<T>(p: Pool<T>, r: Ref): Pool<T> {
    Pool(p.objects - {r}, p.free - multiset{r})
  }

  ghost predicate HeldBySome(held: seq<Option<Ref>>, r: Ref) {
    exists k :: 0 <= k < |held| && held[k] == Some(r)
  }

  /** Every object is held by exactly one call or lies in the pool exactly once. */
  ghost predicate Sound<T>(p: Pool<T>, held: seq<Option<Ref>>) {
    && (forall r :: r in p.free ==> r in p.objects && p.free[r] == 1 && !HeldBySome(held, r))
    && (forall r :: r in p.objects && r !in p.free ==> HeldBySome(held, r))
    && (forall k :: 0 <= k < |held| && held[k].Some? ==> held[k].value in p.objects)
    && (forall j, k | 0 <= j < k < |held| :: held[j].Some? ==> held[j] != held[k])
  }

  /** What the calls other than `k` hold still has the same contents. */
  predicate Kept<T(==)>(p: Pool<T>, q: Pool<T>, held: seq<Option<Ref>>, k: int) {
    forall j | 0 <= j < |held| && j != k && held[j].Some? ::
      && held[j].value in p.objects && held[j].value in q.objects
      && q.objects[held[j].value] == p.objects[held[j].value]
  }

  lemma {:induction false} NotFree<T>(p: Pool<T>, held: seq<Option<Ref>>, j: nat)
    requires Sound(p, held) && j < |held| && held[j].Some?
    ensures held[j].value !in p.free && held[j].value in p.objects
  {
    assert HeldBySome(held, held[j].value);
  }

  lemma {:induction false} LeaveIsSound<T>(p: Pool<T>, held: seq<Option<Ref>>, k: nat)
    requires Sound(p, held) && k < |held|
    ensures Sound(p, held[k := held[k]]) && Kept(p, p, held, k)
  {
    assert held[k := held[k]] == held;
  }

  lemma {:induction false} TakeIsSound<T>(p: Pool<T>, held: seq<Option<Ref>>, k: nat, r: Ref, blank: T)
    requires Sound(p, held) && k < |held| && held[k] == None && CanTake(p, r)
    ensures Sound(Take(p, r, blank), held[k := Some(r)])
    ensures Kept(p, Take(p, r, blank), held, k)
  {
    var now, q := held[k := Some(r)], Take(p, r, blank);
    assert now[k] == Some(r);
    assert !HeldBySome(held, r);
    forall x: Ref | HeldBySome(held, x) ensures HeldBySome(now, x) {
      var j :| 0 <= j < |held| && held[j] == Some(x);
      assert now[j] == Some(x);
    }
    forall x: Ref | HeldBySome(now, x) && x != r ensures HeldBySome(held, x) {
      var j :| 0 <= j < |now| && now[j] == Some(x);
      assert held[j] == Some(x);
    }
    assert HeldBySome(now, r);
  }

  lemma {:induction false} GiveIsSound<T>(p: Pool<T>, held: seq<Option<Ref>>, k: nat, r: Ref, last: T)
    requires Sound(p, held) && k < |held| && held[k] == Some(r)
    ensures Sound(Give(p, r, last), held[k := None]) && Kept(p, Give(p, r, last), held, k)
  {
    var now := held[k := None];
    assert HeldBySome(held, r);
    forall x: Ref | HeldBySome(held, x) && x != r ensures HeldBySome(now, x) {
      var j :| 0 <= j < |held| && held[j] == Some(x);
      assert now[j] == Some(x);
    }
    forall x: Ref | HeldBySome(now, x) ensures HeldBySome(held, x) && x != r {
      var j :| 0 <= j < |now| && now[j] == Some(x);
      assert held[j] == Some(x);
    }
  }

  lemma {:induction false} UpdateIsSound<T>(p: Pool<T>, held: seq<Option<Ref>>, k: nat, r: Ref, value: T)
    requires Sound(p, held) && k < |held| && held[k] == Some(r)
    ensures Sound(Update(p, r, value), held[k := held[k]]) && Kept(p, Update(p, r, value), held, k)
  {
    assert held[k := held[k]] == held;
    assert HeldBySome(held, r);
  }

  lemma {:induction false} DiscardIsSound<T>(p: Pool<T>, held: seq<Option<Ref>>, r: Ref)
    requires Sound(p, held) && r in p.free
    ensures Sound(Discard(p, r), held) && Kept(p, Discard(p, r), held, -1)
  {
    forall k | 0 <= k < |held| && held[k].Some? ensures held[k].value != r {
      assert HeldBySome(held, held[k].value);
    }
  }
}
