/** Memory pools (src/mempool.c), in atomic sections as the mailbox. */
module MemPools {
  import opened Lists
  import opened Options
  import opened Waiting

  // The blocks from `first` on, as the links in them lead.
  ghost predicate Chain(links: map<nat, Option<nat>>, first: Option<nat>, blocks: seq<nat>)
    decreases blocks
  {
    match first
    case None => blocks == []
    case Some(b) => blocks != [] && blocks[0] == b && b in links && Chain(links, links[b], blocks[1..])
  }

  // Changing the link of a block that is not on the chain does not change the chain.
  lemma {:induction false} ChainApart(links: map<nat, Option<nat>>, first: Option<nat>, blocks: seq<nat>, b: nat, v: Option<nat>)
    requires Chain(links, first, blocks) && b !in blocks
    ensures Chain(links[b := v], first, blocks)
    decreases blocks
  {
    if first.Some? { ChainApart(links, links[first.value], blocks[1..], b, v); }
  }

  datatype Call = Allocating(t: ThreadId, wait: bool) | Freeing(block: nat) | GivingUp(t: ThreadId)

  class MemPool {
    const total: nat // block_total_count
    var freeCount: nat
    var blockList: Option<nat>
    var links: map<nat, Option<nat>> // the first word of each free block
    var sleepers: seq<ThreadId>
    ghost var free: seq<nat>
    ghost var woken: set<ThreadId>

    // The embedded list holds `freeCount` blocks of the pool, each once.
    ghost predicate Listed()
      reads this`freeCount, this`blockList, this`links, this`free
    {
      && Chain(links, blockList, free) && NoDuplicates(free)
      && freeCount == |free| && forall b: nat :: b in free ==> b < total
    }

    ghost predicate Valid()
      reads this
    {
      Listed() && Sound(sleepers, woken, freeCount)
    }

    // rt_mp_init: every block links to the one after it, the last to none.
    constructor (total: nat)
      requires total > 0
      ensures Valid() && this.total == total && |free| == total && sleepers == []
      ensures forall b: nat :: b < total ==> b in free
    {
      this.total := total;
      freeCount := total;
      blockList := Some(0);
      sleepers := [];
      woken := {};
      free := seq(total, b => b);
      links := map[];
      new;
      for b := 0 to total
        invariant this.total == total && freeCount == total && blockList == Some(0) && sleepers == [] && woken == {}
        invariant free == seq(total, b => b)
        invariant forall a: nat :: a < b ==> a in links && links[a] == Some(a + 1)
      {
        links := links[b := Some(b + 1)];
      }
      links := links[total - 1 := None];
      UpTo(links, total, 0);
      assert free[0..] == free;
      forall b: nat | b < total ensures b in free { assert free[b] == b; }
    }

    // rt_mp_alloc: takes the first free block, or sleeps in front of the others, or gives up.
    method Alloc(t: ThreadId, wait: bool) returns (block: Option<nat>)
      requires Valid() && t !in sleepers
      modifies this`freeCount, this`blockList, this`free, this`sleepers, this`woken
      ensures Valid()
      ensures block == if old(free) != [] then Some(old(free)[0]) else None
      ensures free == if old(free) != [] then old(free)[1..] else old(free)
      ensures sleepers == if old(free) == [] && wait then [t] + old(sleepers) else old(sleepers)
      ensures woken == old(woken) - {t}
    {
      hide Sound;
      if freeCount == 0 {
        LeaveEmpty(sleepers, woken, freeCount, t);
        Sleep(sleepers, woken, freeCount, t, 0);
        woken := woken - {t};
        if wait {
          assert Insert(sleepers, 0, t) == [t] + sleepers;
          sleepers := [t] + sleepers;
        }
        return None;
      }
      TakeOne(sleepers, woken, freeCount, t);
      TailMembers(free);
      freeCount := freeCount - 1;
      block := blockList;
      blockList := links[blockList.value];
      free := free[1..];
      woken := woken - {t};
    }

    // rt_mp_free: the block heads the list, and the first sleeper is woken.
    method Free(block: nat)
      requires Valid() && block < total && block !in free
      modifies this`freeCount, this`blockList, this`links, this`free, this`sleepers, this`woken
      ensures Valid()
      ensures free == [block] + old(free)
      ensures old(sleepers) != [] ==> sleepers == old(sleepers)[1..] && woken == old(woken) + {old(sleepers)[0]}
      ensures old(sleepers) == [] ==> sleepers == [] && woken == old(woken)
    {
      hide Sound;
      OfferOne(sleepers, woken, freeCount);
      InsertMembers(free, 0, block);
      assert Insert(free, 0, block) == [block] + free;
      ChainApart(links, blockList, free, block, blockList);
      freeCount := freeCount + 1;
      links := links[block := blockList];
      blockList := Some(block);
      free := [block] + free;
      assert free[1..] == old(free);
      if sleepers != [] {
        woken := woken + {sleepers[0]};
        sleepers := sleepers[1..];
      }
    }

    // A timeout ends the sleep of a thread.
    method GiveUp(t: ThreadId)
      requires Valid()
      modifies this`sleepers
      ensures Valid() && sleepers == Without(old(sleepers), t)
    {
      Depart(sleepers, woken, freeCount, t);
      sleepers := Without(sleepers, t);
    }

    // Any calls in any order; those of threads that are asleep are skipped, and so is the release of a block
    // that these calls have not given out. No sleeping client is passed over: with blocks free, as many woken
    // threads are on their way. The blocks given out and the free ones are those that were free.
    method Run(calls: seq<Call>) returns (out: set<nat>)
      requires Valid()
      modifies this
      ensures Valid()
      ensures sleepers != [] ==> |free| <= |woken|
      ensures forall b: nat :: b in old(free) <==> b in free || b in out
      ensures forall b: nat :: b in out ==> b !in free
    {
      hide Chain;
      out := {};
      for i := 0 to |calls|
        invariant Valid()
        invariant forall b: nat :: b in old(free) <==> b in free || b in out
        invariant forall b: nat :: b in out ==> b !in free
      {
        match calls[i] {
          case Allocating(t, wait) =>
            if t !in sleepers {
              if free != [] { TailMembers(free); }
              var block := Alloc(t, wait);
              if block.Some? { out := out + {block.value}; }
            }
          case Freeing(b) =>
            if b in out {
              Free(b);
              out := out - {b};
            }
          case GivingUp(t) => GiveUp(t);
        }
      }
    }

    // A block taken and given back at once is the first again: the list is as it was.
    method TakeAndGiveBack(t: ThreadId)
      requires Valid() && t !in sleepers && free != []
      modifies this`freeCount, this`blockList, this`links, this`free, this`sleepers, this`woken
      ensures Valid() && free == old(free)
    {
      TailMembers(free);
      assert free == [free[0]] + free[1..] && free[0] in free;
      var b := Alloc(t, false);
      Free(b.value);
    }
  }

  lemma {:induction false} UpTo(links: map<nat, Option<nat>>, n: nat, a: nat)
    requires a < n
    requires forall b: nat :: b < n ==> b in links && links[b] == if b == n - 1 then None else Some(b + 1)
    ensures Chain(links, Some(a), seq(n, b => b)[a..])
    decreases n - a
  {
    var all := seq(n, b => b);
    if a < n - 1 {
      UpTo(links, n, a + 1);
      assert all[a..][1..] == all[a + 1..];
    }
  }
}
