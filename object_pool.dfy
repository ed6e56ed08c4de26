/** The card pool: a first-in first-out reserve of inactive cards that hands
    them out activated and takes them back deactivated. */
module Pooling {
  import opened Engine

  function Max0(n: int): nat
  {
    if n < 0 then 0 else n
  }

  /** No element occurs twice. */
  ghost predicate NoDuplicates<T>(s: seq<T>)
  {
    forall i, j :: 0 <= i < j < |s| ==> s[i] != s[j]
  }

  /** The reserve left after `k` cards have been handed out from `q`. */
  function Drain<T>(q: seq<T>, k: nat): (r: seq<T>)
    ensures |r| == Max0(|q| - k)
  {
    q[if k < |q| then k else |q|..]
  }

  /** Handing out `a` cards and then `b` more is handing out `a + b`, and the
      cards instantiated along the way add up. */
  lemma DrainTwice<T>(q: seq<T>, a: nat, b: nat, mid: seq<T>, last: seq<T>)
    requires mid == Drain(q, a) && last == Drain(mid, b)
    ensures last == Drain(q, a + b)
    ensures Max0(a - |q|) + Max0(b - |mid|) == Max0(a + b - |q|)
  {
  }

  /** The first `|q|` of the cards `taken` were the front of the reserve `q`,
      in order. */
  ghost predicate TakenFrom<T>(taken: seq<T>, q: seq<T>)
  {
    forall j :: 0 <= j < |taken| && j < |q| ==> taken[j] == q[j]
  }

  lemma TakenFromAppend<T>(cards: seq<T>, more: seq<T>, q: seq<T>)
    requires TakenFrom(cards, q) && TakenFrom(more, Drain(q, |cards|))
    ensures TakenFrom(cards + more, q)
  {
    forall j | 0 <= j < |cards + more| && j < |q| ensures (cards + more)[j] == q[j] {
      if j >= |cards| {
        assert (cards + more)[j] == more[j - |cards|];
      }
    }
  }

  /** Taking at most one more card keeps the account of a run of takes from
      a reserve: the pool is the reserve drained by every card taken, one
      object was created per card beyond the reserve, the cards taken first
      are the reserve's front in order, and the later ones are none of the
      reserve's. */
  lemma TakeStep<T>(reserve: seq<T>, cards: seq<T>, taken: seq<T>, queueBefore: seq<T>,
                    queue: seq<T>, created: nat, createdBefore: nat, createdNow: nat)
    requires queueBefore == Drain(reserve, |cards|)
    requires createdBefore == created + Max0(|cards| - |reserve|)
    requires TakenFrom(cards, reserve)
    requires forall j :: |reserve| <= j < |cards| ==> cards[j] !in reserve
    requires |taken| <= 1
    requires queue == Drain(queueBefore, |taken|)
    requires createdNow == createdBefore + Max0(|taken| - |queueBefore|)
    requires TakenFrom(taken, queueBefore)
    requires taken != [] && queueBefore == [] ==> taken[0] !in reserve
    ensures queue == Drain(reserve, |cards + taken|)
    ensures createdNow == created + Max0(|cards + taken| - |reserve|)
    ensures TakenFrom(cards + taken, reserve)
    ensures forall j :: |reserve| <= j < |cards + taken| ==> (cards + taken)[j] !in reserve
  {
    DrainTwice(reserve, |cards|, |taken|, queueBefore, queue);
    TakenFromAppend(cards, taken, reserve);
    forall j | |reserve| <= j < |cards + taken| ensures (cards + taken)[j] !in reserve {
      if j >= |cards| {
        assert j == |cards| && queueBefore == [];
      }
    }
  }

  /** The front of a drained reserve is a card of the reserve. */
  lemma DrainFront<T>(q: seq<T>, k: nat)
    requires Drain(q, k) != []
    ensures Drain(q, k)[0] in q
  {
    assert Drain(q, k)[0] == q[k];
  }

  class ObjectPool {
    /** The template new cards are instantiated from. */
    const prefab: Prefab
    /** How many cards Awake pre-creates (20 unless configured otherwise). */
    const poolSize: int
    /** The reserve, front first. */
    var queue: seq<GameObject>
    /** How many cards this pool has instantiated so far. */
    ghost var created: nat

    /** The pool's invariant: every card waiting in the reserve is inactive. */
    ghost predicate Valid()
      reads this, queue
    {
      forall i :: 0 <= i < |queue| ==> !queue[i].active
    }

    /** No card waits in the reserve twice. */
    ghost predicate Distinct()
      reads this
    {
      NoDuplicates(queue)
    }

    /** The pool before Awake has run: an empty reserve. */
    constructor (prefab: Prefab, poolSize: int)
      ensures this.prefab == prefab && this.poolSize == poolSize
      ensures queue == [] && created == 0
      ensures Valid() && Distinct()
    {
      this.prefab := prefab;
      this.poolSize := poolSize;
      queue := [];
      created := 0;
    }

    /** Pre-fills the reserve with `poolSize` new inactive cards (none when
        `poolSize` is not positive). */
    method Awake()
      modifies this
      ensures |queue| == |old(queue)| + Max0(poolSize)
      ensures queue[..|old(queue)|] == old(queue)
      ensures forall i :: |old(queue)| <= i < |queue| ==>
        fresh(queue[i]) && !queue[i].active &&
        queue[i].sprite == prefab.sprite && queue[i].texts == prefab.texts
      ensures forall i, j :: |old(queue)| <= i < j < |queue| ==> queue[i] != queue[j]
      ensures created == old(created) + Max0(poolSize)
      ensures old(Valid()) ==> Valid()
      ensures old(Distinct()) ==> Distinct()
    {
      var i := 0;
      while i < poolSize
        invariant 0 <= Max0(i) <= Max0(poolSize)
        invariant i > 0 ==> i <= poolSize
        invariant |queue| == |old(queue)| + Max0(i)
        invariant queue[..|old(queue)|] == old(queue)
        invariant forall k :: |old(queue)| <= k < |queue| ==>
          fresh(queue[k]) && !queue[k].active &&
          queue[k].sprite == prefab.sprite && queue[k].texts == prefab.texts
        invariant forall k, l :: |old(queue)| <= k < l < |queue| ==> queue[k] != queue[l]
        invariant created == old(created) + Max0(i)
        invariant old(Valid()) ==> Valid()
        invariant old(Distinct()) ==> Distinct()
      {
        var obj := new GameObject.Instantiate(prefab);
        created := created + 1;
        obj.SetActive(false);
        queue := queue + [obj];
        i := i + 1;
      }
    }

    /** Takes the front card of the reserve, or instantiates a new one when the
        reserve is empty, and activates it. */
    method GetObject() returns (obj: GameObject)
      modifies this, if queue == [] then {} else {queue[0]}
      ensures obj.active
      ensures old(queue) != [] ==>
        obj == old(queue[0]) && queue == old(queue[1..]) && created == old(created) &&
        obj.sprite == old(queue[0].sprite) && obj.texts == old(queue[0].texts)
      ensures old(queue) == [] ==>
        fresh(obj) && queue == [] && created == old(created) + 1 &&
        obj.sprite == prefab.sprite && obj.texts == prefab.texts
      ensures old(Valid()) ==> (Valid() <==> obj !in queue)
      ensures old(Distinct()) ==> Distinct() && obj !in queue
    {
      if |queue| > 0 {
        obj := queue[0];
        queue := queue[1..];
        obj.SetActive(true);
      } else {
        obj := new GameObject.Instantiate(prefab);
        created := created + 1;
        obj.SetActive(true);
      }
    }

    /** Deactivates a card and puts it at the back of the reserve. There is no
        check that the card is not already waiting there. */
    method ReturnObject(obj: GameObject)
      modifies this, obj
      ensures !obj.active && obj.sprite == old(obj.sprite) && obj.texts == old(obj.texts)
      ensures queue == old(queue) + [obj] && created == old(created)
      ensures old(Valid()) ==> Valid()
      ensures Distinct() <==> old(Distinct()) && obj !in old(queue)
    {
      obj.SetActive(false);
      queue := queue + [obj];
      if Distinct() {
        forall i | 0 <= i < |old(queue)| ensures old(queue)[i] != obj {
          assert queue[i] != queue[|queue| - 1];
        }
        assert forall i, j :: 0 <= i < j < |old(queue)| ==> old(queue)[i] == queue[i] != queue[j] == old(queue)[j];
      }
    }
  }

  /** The pool's life from the start of the screen: its fields initialised,
      then Awake. The reserve then holds exactly `poolSize` distinct new
      inactive cards, none when `poolSize` is not positive. */
  method StartPool(prefab: Prefab, poolSize: int) returns (pool: ObjectPool)
    ensures fresh(pool) && pool.prefab == prefab && pool.poolSize == poolSize
    ensures |pool.queue| == Max0(poolSize) && pool.created == Max0(poolSize)
    ensures pool.Valid() && pool.Distinct()
    ensures forall i :: 0 <= i < |pool.queue| ==> fresh(pool.queue[i])
  {
    pool := new ObjectPool(prefab, poolSize);
    pool.Awake();
  }

  /** Reuse before growth: a card returned to an empty reserve is the next one
      handed out, and no new card is instantiated. */
  method ReuseBeforeGrowth(pool: ObjectPool, card: GameObject) returns (got: GameObject)
    requires pool.queue == []
    modifies pool, card
    ensures got == card && got.active
    ensures pool.queue == [] && pool.created == old(pool.created)
  {
    pool.ReturnObject(card);
    got := pool.GetObject();
  }

  /** Returning the same card twice leaves two entries for it; handing one of
      them out then leaves an active card waiting in the reserve, so the
      pool's invariant no longer holds. */
  method DoubleReturn(pool: ObjectPool, card: GameObject) returns (got: GameObject)
    requires pool.queue == []
    modifies pool, card
    ensures got == card && got.active
    ensures pool.queue == [card]
    ensures !pool.Valid()
  {
    pool.ReturnObject(card);
    pool.ReturnObject(card);
    assert pool.queue == [card, card];
    got := pool.GetObject();
  }
}
