/** The per-tuple Identifier allocator (pkg/io/idalloc.go; Identifiers: section 3 of RFC 2865). */
module IdAllocator {
  import opened Wrappers
  import opened Bytes
  import opened Bits

  datatype Tuple = Tuple(src: string, dst: string)

  /** What a bitmap stands for: the Identifiers held, and where the next scan starts. */
  datatype IdState = IdState(held: set<byte>, next: byte)

  const EMPTY := IdState({}, 0)

  /** Steps forward from one Identifier to another around the circle of 256. */
  function Distance(from: byte, to: byte): (d: nat)
    ensures d < 256
  {
    (to as int - from as int) % 256
  }

  function After(id: byte): byte {
    ((id as int + 1) % 256) as byte
  }

  /** Cyclic next-fit: `id` is free and no free Identifier is nearer to `next`. */
  predicate Picks(s: IdState, id: byte) {
    id !in s.held && forall other: byte | other !in s.held :: Distance(s.next, id) <= Distance(s.next, other)
  }

  function Take(s: IdState, id: byte): IdState {
    IdState(s.held + {id}, After(id))
  }

  function Drop(s: IdState, id: byte): IdState {
    s.(held := s.held - {id})
  }

  function IdsBelow(n: nat): (r: set<byte>)
    requires n <= 256
    ensures |r| == n && forall id: byte :: id in r <==> id as nat < n
  {
    if n == 0 then {} else IdsBelow(n - 1) + {(n - 1) as byte}
  }

  /** All 256 are held exactly when no Identifier is free. */
  lemma FullExactly(held: set<byte>)
    ensures |held| <= 256
    ensures |held| == 256 <==> forall id: byte :: id in held
  {
    var all := IdsBelow(256);
    assert |held| + |all - held| == |all| by { assert all == held + (all - held); }
    if all - held == {} {
      assert held == all;
    } else {
      var free :| free in all - held;
    }
  }

  /** The choice is unique: next-fit leaves the allocator no freedom. */
  lemma PicksUnique(s: IdState, a: byte, b: byte)
    requires Picks(s, a) && Picks(s, b)
    ensures a == b
  {
  }

  /** The first free Identifier among next, next + 1, next + 2 and so on, 0 following 255. */
  predicate FirstFree(s: IdState, id: byte) {
    id !in s.held &&
    exists d: nat :: d < 256 && Ahead(s.next, d) == id && forall k: nat :: k < d ==> Ahead(s.next, k) in s.held
  }

  function Ahead(next: byte, d: nat): byte {
    ((next as int + d) % 256) as byte
  }

  lemma AheadIs(next: byte, d: nat, id: byte)
    requires d < 256
    ensures Ahead(next, d) == id <==> Distance(next, id) == d
  {
  }

  /** Next-fit scans upwards from where it stopped. */
  lemma PicksFirstFree(s: IdState, id: byte)
    ensures Picks(s, id) <==> FirstFree(s, id)
  {
    var d := Distance(s.next, id);
    AheadIs(s.next, d, id);
    if Picks(s, id) {
      forall k: nat | k < d ensures Ahead(s.next, k) in s.held { AheadIs(s.next, k, Ahead(s.next, k)); }
    }
    if FirstFree(s, id) {
      var e: nat :| e < 256 && Ahead(s.next, e) == id && forall k: nat :: k < e ==> Ahead(s.next, k) in s.held;
      AheadIs(s.next, e, id);
      forall other: byte | other !in s.held ensures d <= Distance(s.next, other) {
        AheadIs(s.next, Distance(s.next, other), other);
      }
    }
  }

  // ---- How long a released Identifier rests ----

  datatype Op = Alloc(id: byte) | Refused | Release(id: byte)

  ghost predicate OpStep(s: IdState, op: Op, t: IdState) {
    match op
    case Alloc(id) => Picks(s, id) && t == Take(s, id)
    case Refused => t == s && forall id: byte :: id in s.held
    case Release(id) => t == Drop(s, id)
  }

  ghost predicate History(states: seq<IdState>, ops: seq<Op>) {
    |states| == |ops| + 1 && forall k :: 0 <= k < |ops| ==> OpStep(states[k], ops[k], states[k + 1])
  }

  /** The scan of operation k allocated `x`, or passed over it because it was held. */
  ghost predicate Visits(states: seq<IdState>, ops: seq<Op>, k: nat, x: byte)
    requires k < |ops| <= |states|
  {
    && ops[k].Alloc?
    && (ops[k].id == x
        || (x in states[k].held && Distance(states[k].next, x) < Distance(states[k].next, ops[k].id)))
  }

  lemma DistanceAdvances(from: byte, a: byte, x: byte)
    requires Distance(from, a) < Distance(from, x)
    ensures Distance(After(a), x) == Distance(from, x) - Distance(from, a) - 1
  {
  }

  /** While the scans since have not reached `x`, it lies before `id` on the circle. */
  lemma {:induction false} SweepFrom(states: seq<IdState>, ops: seq<Op>, k: nat, j: nat, id: byte, x: byte)
    requires History(states, ops) && k <= j < |ops| && ops[j] == Alloc(id)
    requires Distance(states[k].next, x) < Distance(states[k].next, id)
    ensures exists m :: k <= m <= j && Visits(states, ops, m, x)
    decreases j - k
  {
    var s := states[k];
    assert OpStep(s, ops[k], states[k + 1]);
    if ops[k].Alloc? && Distance(s.next, x) <= Distance(s.next, ops[k].id) {
      assert Visits(states, ops, k, x);
    } else {
      if ops[k].Alloc? {
        DistanceAdvances(s.next, ops[k].id, x);
        if k < j { DistanceAdvances(s.next, ops[k].id, id); }
      }
      SweepFrom(states, ops, k + 1, j, id, x);
    }
  }

  /**
   Between two allocations of the same Identifier, every other one was allocated, or was held when
   a scan passed it: a released Identifier is not used again before the scan has gone all the way round.
   */
  lemma ReuseSweepsAll(states: seq<IdState>, ops: seq<Op>, i: nat, j: nat, id: byte, x: byte)
    requires History(states, ops) && i < j < |ops|
    requires ops[i] == Alloc(id) && ops[j] == Alloc(id) && x != id
    ensures exists m :: i < m <= j && Visits(states, ops, m, x)
  {
    assert OpStep(states[i], ops[i], states[i + 1]);
    SweepFrom(states, ops, i + 1, j, id, x);
  }

  ghost predicate AllAllocs(ops: seq<Op>, n: nat) {
    forall k :: 0 <= k < n && k < |ops| ==> ops[k].Alloc?
  }

  /** A new tuple gives out 0, 1, 2 and so on up to 255. */
  lemma {:induction false} CountsUp(states: seq<IdState>, ops: seq<Op>, n: nat)
    requires History(states, ops) && states[0] == EMPTY && n < |ops| && n < 256 && AllAllocs(ops, n + 1)
    ensures states[n].next as nat == n && (forall id: byte :: id in states[n].held <==> id as nat < n)
    ensures ops[n].id as nat == n
  {
    if n > 0 { CountsUp(states, ops, n - 1); }
    assert OpStep(states[n], ops[n], states[n + 1]);
    if n > 0 { assert OpStep(states[n - 1], ops[n - 1], states[n]); }
    var free := n as byte;
    assert free !in states[n].held && Distance(states[n].next, free) == 0;
  }

  // ---- The bitmap ----

  /** The scan position i steps from `next` is one Identifier. */
  lemma OnlyAt(next: byte, i: nat, id: byte)
    requires i < 256 && id as int == (next as int + i) % 256
    ensures forall x: byte :: Distance(next, x) == i <==> x == id
  {
  }

  predicate InWords(words: seq<nat>, id: byte)
    requires |words| == 4
  {
    Bit(words[id as nat / 64], id as nat % 64)
  }

  function IdsOf(words: seq<nat>): set<byte>
    requires |words| == 4
  {
    set id: byte | InWords(words, id)
  }

  lemma SetInWords(words: seq<nat>, id: byte)
    requires |words| == 4
    ensures IdsOf(words[id as nat / 64 := SetBit(words[id as nat / 64], id as nat % 64)]) == IdsOf(words) + {id}
  {
    var w := id as nat / 64;
    var after := words[w := SetBit(words[w], id as nat % 64)];
    forall x: byte ensures InWords(after, x) <==> InWords(words, x) || x == id {
      SetBitBits(words[w], id as nat % 64, x as nat % 64);
    }
  }

  lemma ClearInWords(words: seq<nat>, id: byte)
    requires |words| == 4
    ensures IdsOf(words[id as nat / 64 := ClearBit(words[id as nat / 64], id as nat % 64)]) == IdsOf(words) - {id}
  {
    var w := id as nat / 64;
    var after := words[w := ClearBit(words[w], id as nat % 64)];
    forall x: byte ensures InWords(after, x) <==> InWords(words, x) && x != id {
      ClearBitBits(words[w], id as nat % 64, x as nat % 64);
    }
  }

  /** One more Identifier in the words. */
  lemma MarkWords(words: seq<nat>, id: byte)
    requires |words| == 4 && words[id as nat / 64] < Pow2(64) && !InWords(words, id)
    ensures var w := id as nat / 64;
            var after := SetBit(words[w], id as nat % 64);
            && after < Pow2(64) && |IdsOf(words[w := after])| == |IdsOf(words)| + 1
            && IdsOf(words[w := after]) == IdsOf(words) + {id}
  {
    BitUpdateBounds(words[id as nat / 64], id as nat % 64, 64);
    SetInWords(words, id);
    assert id !in IdsOf(words);
  }

  lemma UnmarkWords(words: seq<nat>, id: byte)
    requires |words| == 4 && words[id as nat / 64] < Pow2(64) && InWords(words, id)
    ensures var w := id as nat / 64;
            var after := ClearBit(words[w], id as nat % 64);
            && after < Pow2(64) && |IdsOf(words[w := after])| == |IdsOf(words)| - 1
            && IdsOf(words[w := after]) == IdsOf(words) - {id}
  {
    BitUpdateBounds(words[id as nat / 64], id as nat % 64, 64);
    ClearInWords(words, id);
    assert id in IdsOf(words);
  }

  class IdBitmap {
    var bits: seq<nat>
    var count: nat
    var next: byte

    ghost predicate Valid()
      reads this
    {
      && |bits| == 4
      && (forall w :: 0 <= w < 4 ==> bits[w] < Pow2(64))
      && count == |IdsOf(bits)|
    }

    ghost function State(): IdState
      requires |bits| == 4
      reads this
    {
      IdState(IdsOf(bits), next)
    }

    constructor ()
      ensures Valid() && State() == EMPTY
    {
      bits := [0, 0, 0, 0];
      count, next := 0, 0;
      new;
      forall x: byte ensures !InWords(bits, x) { ZeroHasNoBits(x as nat % 64); }
      assert IdsOf(bits) == {};
    }

    /** `bits[w] |= bit; count++`. */
    method Mark(id: byte)
      requires Valid() && !InWords(bits, id)
      modifies this`count, this`bits
      ensures Valid() && IdsOf(bits) == IdsOf(old(bits)) + {id}
    {
      var w := id as nat / 64;
      MarkWords(bits, id);
      bits := bits[w := SetBit(bits[w], id as nat % 64)];
      count := count + 1;
    }

    /** `bits[w] &^= bit; count--`. */
    method Unmark(id: byte)
      requires Valid() && InWords(bits, id)
      modifies this`count, this`bits
      ensures Valid() && IdsOf(bits) == IdsOf(old(bits)) - {id}
    {
      var w := id as nat / 64;
      UnmarkWords(bits, id);
      bits := bits[w := ClearBit(bits[w], id as nat % 64)];
      count := count - 1;
    }

    method Allocate() returns (r: Option<byte>)
      requires Valid()
      modifies this
      ensures Valid()
      ensures r.None? <==> |old(State()).held| == 256
      ensures r.Some? ==> Picks(old(State()), r.value) && State() == Take(old(State()), r.value)
      ensures r.None? ==> State() == old(State())
    {
      FullExactly(IdsOf(bits));
      if count == 256 {
        return None;
      }
      for i := 0 to 256
        invariant Valid() && bits == old(bits) && next == old(next)
        invariant forall x: byte | Distance(next, x) < i :: x in IdsOf(bits)
      {
        var id := ((next as int + i) % 256) as byte;
        OnlyAt(next, i, id);
        if !Bit(bits[id as nat / 64], id as nat % 64) {
          Mark(id);
          next := After(id);
          return Some(id);
        }
        assert InWords(bits, id);
      }
      return None;
    }

    method Release(id: byte)
      requires Valid()
      modifies this
      ensures Valid() && State() == Drop(old(State()), id)
    {
      if Bit(bits[id as nat / 64], id as nat % 64) {
        Unmark(id);
      } else {
        assert !InWords(bits, id);
      }
    }
  }

  // ---- One bitmap per tuple ----

  /** The state of a tuple's bitmap; a tuple never used stands for an empty one. */
  function At(model: map<Tuple, IdState>, t: Tuple): IdState {
    if t in model then model[t] else EMPTY
  }

  function Bucketed(model: map<Tuple, IdState>, t: Tuple): map<Tuple, IdState> {
    if t in model then model else model[t := EMPTY]
  }

  /** Making a tuple's bucket changes nothing that an allocation then shows. */
  lemma BucketIsInvisible(model: map<Tuple, IdState>, t: Tuple, s: IdState)
    ensures Bucketed(model, t)[t := s] == model[t := s]
    ensures Bucketed(model, t)[t] == At(model, t)
    ensures |At(model, t).held| == 256 ==> Bucketed(model, t) == model
  {
  }

  class IDAllocator {
    var perTuple: map<Tuple, IdBitmap>
    /** What the bitmaps stand for. */
    ghost var model: map<Tuple, IdState>
    ghost var Repr: set<object>

    ghost predicate Valid()
      reads this, Repr
    {
      && this in Repr && model.Keys == perTuple.Keys
      && (forall t :: t in perTuple ==>
            perTuple[t] in Repr && perTuple[t].Valid() && perTuple[t].State() == model[t])
      && (forall t, u :: t in perTuple && u in perTuple && t != u ==> perTuple[t] != perTuple[u])
    }

    constructor ()
      ensures Valid() && fresh(Repr) && model == map[]
    {
      perTuple, model := map[], map[];
      Repr := {this};
    }

    /** The first section of Allocate: the bucket is made on first use. */
    method Bucket(t: Tuple) returns (bm: IdBitmap)
      requires Valid()
      modifies Repr
      ensures Valid() && fresh(Repr - old(Repr))
      ensures t in perTuple && bm == perTuple[t]
      ensures model == Bucketed(old(model), t)
    {
      if t in perTuple {
        return perTuple[t];
      }
      bm := new IdBitmap();
      perTuple := perTuple[t := bm];
      model := model[t := EMPTY];
      Repr := Repr + {bm};
    }

    /** The model follows what one bitmap has done. */
    ghost method Settle(t: Tuple, s: IdState)
      requires this in Repr && model.Keys == perTuple.Keys && t in perTuple
      requires forall u :: u in perTuple ==>
                 perTuple[u] in Repr && perTuple[u].Valid() && perTuple[u].State() == (if u == t then s else model[u])
      requires forall u, v :: u in perTuple && v in perTuple && u != v ==> perTuple[u] != perTuple[v]
      modifies this`model
      ensures Valid() && model == old(model)[t := s]
    {
      model := model[t := s];
    }

    /** The second section: the bucket's own allocate. */
    method AllocateIn(t: Tuple) returns (r: Option<byte>)
      requires Valid() && t in perTuple
      modifies Repr
      ensures Valid() && Repr == old(Repr)
      ensures r.None? <==> |old(model)[t].held| == 256
      ensures r.None? ==> model == old(model)
      ensures r.Some? ==> Picks(old(model)[t], r.value) && model == old(model)[t := Take(old(model)[t], r.value)]
    {
      var bm := perTuple[t];
      r := bm.Allocate();
      Settle(t, bm.State());
    }

    method Allocate(t: Tuple) returns (r: Option<byte>)
      requires Valid()
      modifies Repr
      ensures Valid() && fresh(Repr - old(Repr))
      ensures r.None? <==> |At(old(model), t).held| == 256
      ensures r.None? ==> model == old(model)
      ensures r.Some? ==>
                Picks(At(old(model), t), r.value) && model == old(model)[t := Take(At(old(model), t), r.value)]
    {
      ghost var before := model;
      var bm := Bucket(t);
      r := AllocateIn(t);
      BucketIsInvisible(before, t, if r.Some? then Take(At(before, t), r.value) else EMPTY);
    }

    method Release(t: Tuple, id: byte)
      requires Valid()
      modifies Repr
      ensures Valid() && Repr == old(Repr)
      ensures model == if t in old(model) then old(model)[t := Drop(old(model)[t], id)] else old(model)
    {
      if t !in perTuple {
        return;
      }
      var bm := perTuple[t];
      bm.Release(id);
      Settle(t, bm.State());
    }

    method Inflight(t: Tuple) returns (n: nat)
      requires Valid()
      ensures n == |At(model, t).held|
    {
      if t !in perTuple {
        return 0;
      }
      n := perTuple[t].count;
    }

    method TupleCount() returns (n: nat)
      requires Valid()
      ensures n == |model|
    {
      assert |perTuple.Keys| == |model.Keys|;
      n := |perTuple|;
    }
  }
}
