// semop() as in the System Interfaces volume of IEEE Std 1003.1-2017: the whole
// array of operations takes effect, or (None) the caller blocks and nothing changes.
module Semaphores {
  import opened Wrappers

  datatype SemBuf = SemBuf(num: nat, op: int)

  // The operations are tried in array order; an operation 0 waits for the value 0,
  // a negative one for a value that is large enough.
  function Semop(sems: seq<nat>, ops: seq<SemBuf>): (r: Option<seq<nat>>)
    requires forall o | o in ops :: o.num < |sems|
    ensures r.Some? ==> |r.value| == |sems|
    decreases |ops|
  {
    if ops == [] then Some(sems)
    else
      var o := ops[0];
      var v := sems[o.num];
      if o.op == 0 then
        if v == 0 then Semop(sems, ops[1..]) else None
      else if v + o.op < 0 then None
      else Semop(sems[o.num := v + o.op], ops[1..])
  }

  // What the operations add to one semaphore together.
  ghost function Net(ops: seq<SemBuf>, num: nat): int
    decreases |ops|
  {
    if ops == [] then 0 else Net(ops[1..], num) + if ops[0].num == num then ops[0].op else 0
  }

  // An operation can be performed on a semaphore with this value.
  predicate Enabled(value: int, op: int) { if op == 0 then value == 0 else value + op >= 0 }

  // Every operation of the array finds its semaphore ready after the operations before it.
  ghost predicate Admits(sems: seq<nat>, ops: seq<SemBuf>) {
    forall k | 0 <= k < |ops| && ops[k].num < |sems| ::
      Enabled(sems[ops[k].num] + Net(ops[..k], ops[k].num), ops[k].op)
  }

  lemma AdmitsFirst(sems: seq<nat>, ops: seq<SemBuf>, next: seq<nat>)
    requires ops != [] && (forall o | o in ops :: o.num < |sems|) && Enabled(sems[ops[0].num], ops[0].op)
    requires next == sems[ops[0].num := sems[ops[0].num] + ops[0].op]
    ensures Admits(sems, ops) <==> Admits(next, ops[1..])
  {
    var rest := ops[1..];
    forall k | 0 <= k < |rest|
      ensures sems[ops[k + 1].num] + Net(ops[..k + 1], ops[k + 1].num)
              == next[rest[k].num] + Net(rest[..k], rest[k].num)
    {
      assert ops[..k + 1][1..] == rest[..k] && ops[k + 1] == rest[k] && ops[..k + 1][0] == ops[0];
      assert rest[k] in ops;
    }
    if Admits(next, rest) {
      forall k | 0 <= k < |ops| ensures Enabled(sems[ops[k].num] + Net(ops[..k], ops[k].num), ops[k].op) {
        if k > 0 {
          assert rest[k - 1] == ops[k];
        }
      }
    }
  }

  // semop succeeds exactly when every operation is enabled in its turn, and then adds to
  // each semaphore what the operations on it add up to.
  lemma {:induction false} SemopMeaning(sems: seq<nat>, ops: seq<SemBuf>)
    requires forall o | o in ops :: o.num < |sems|
    ensures Semop(sems, ops).Some? <==> Admits(sems, ops)
    ensures Semop(sems, ops).Some? ==> forall n | 0 <= n < |sems| :: Semop(sems, ops).value[n] == sems[n] + Net(ops, n)
    decreases |ops|
  {
    if ops != [] {
      var o := ops[0];
      if Enabled(sems[o.num], o.op) {
        var next := sems[o.num := sems[o.num] + o.op];
        assert o.op == 0 ==> next == sems;
        SemopMeaning(next, ops[1..]);
        AdmitsFirst(sems, ops, next);
      } else {
        assert Net(ops[..0], o.num) == 0;
      }
    }
  }

  // One operation at the head of the array.
  lemma SemopHead(sems: seq<nat>, ops: seq<SemBuf>)
    requires ops != [] && forall o | o in ops :: o.num < |sems|
    ensures ops[0].op < 0 && sems[ops[0].num] + ops[0].op < 0 ==> Semop(sems, ops) == None
    ensures ops[0].op == 0 ==> Semop(sems, ops) == if sems[ops[0].num] == 0 then Semop(sems, ops[1..]) else None
    ensures ops[0].op != 0 && sems[ops[0].num] + ops[0].op >= 0
            ==> Semop(sems, ops) == Semop(sems[ops[0].num := sems[ops[0].num] + ops[0].op], ops[1..])
  {
  }

  // Two operations on different semaphores: both happen, or neither does.
  lemma SemopPair(sems: seq<nat>, ops: seq<SemBuf>)
    requires |ops| == 2 && ops[0].num < |sems| && ops[1].num < |sems| && ops[0].num != ops[1].num
    requires ops[0].op != 0 && ops[1].op != 0
    ensures Semop(sems, ops)
            == if sems[ops[0].num] + ops[0].op < 0 || sems[ops[1].num] + ops[1].op < 0 then None
               else Some(sems[ops[0].num := sems[ops[0].num] + ops[0].op]
                             [ops[1].num := sems[ops[1].num] + ops[1].op])
  {
    SemopHead(sems, ops);
    if sems[ops[0].num] + ops[0].op >= 0 {
      SemopHead(sems[ops[0].num := sems[ops[0].num] + ops[0].op], ops[1..]);
    }
  }

  // The operations from number k on.
  lemma SemopFrom(sems: seq<nat>, ops: seq<SemBuf>, k: nat)
    requires k < |ops| && forall o | o in ops :: o.num < |sems|
    ensures Semop(sems, ops[k..])
            == if Enabled(sems[ops[k].num], ops[k].op)
               then Semop(sems[ops[k].num := sems[ops[k].num] + ops[k].op], ops[k + 1..]) else None
  {
    var o := ops[k];
    assert ops[k..][0] == o && ops[k..][1..] == ops[k + 1..];
    assert o.op == 0 ==> sems[o.num := sems[o.num] + o.op] == sems;
  }

  class SemaphoreSet {
    var values: seq<nat>

    constructor (values: seq<nat>)
      ensures this.values == values
    {
      this.values := values;
    }

    // Performs the operations one after the other, and takes them back when one has to wait:
    // the caller blocks (ok is false) with the set unchanged, or all operations have happened.
    method Operate(ops: seq<SemBuf>) returns (ok: bool)
      requires forall o | o in ops :: o.num < |values|
      modifies this
      ensures ok <==> Admits(old(values), ops)
      ensures |values| == |old(values)|
      ensures forall n | 0 <= n < |values| :: values[n] == old(values)[n] + if ok then Net(ops, n) else 0
      ensures Semop(old(values), ops) == if ok then Some(values) else None
    {
      var before := values;
      ghost var result := Semop(before, ops);
      SemopMeaning(before, ops);
      assert ops[0..] == ops;
      var k := 0;
      while k < |ops|
        invariant 0 <= k <= |ops| && |values| == |before|
        invariant result == Semop(values, ops[k..])
      {
        var o := ops[k];
        SemopFrom(values, ops, k);
        if !Enabled(values[o.num], o.op) {
          values := before;
          return false;
        }
        values := values[o.num := values[o.num] + o.op];
        k := k + 1;
      }
      return true;
    }
  }
}
