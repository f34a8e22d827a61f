/** The cache of current-vote reads: one entry per proposal, shared by ordinary callers while
    the read is in flight and for a time-to-live after it was answered. */
module VoteCache {
  import opened Answers
  import opened VoteReceipts

  datatype Progress = InFlight | Answered(at: int, votes: seq<ChainVote>) | Rejected

  /** A read of the node, identified by its position among all reads ever begun. */
  datatype Read = Read(proposal: nat, startedAt: int, state: Progress)

  /** No expiry stands for an entry whose read is still in flight. */
  datatype Entry = Entry(read: nat, expiresAt: Option<int>)

  datatype Cache = Cache(entries: map<nat, Entry>, calls: seq<Read>, lastSweep: int)

  predicate Expired(e: Entry, now: int) { e.expiresAt.Some? && e.expiresAt.value <= now }

  predicate Serves(c: Cache, proposal: nat, refresh: bool, now: int) {
    proposal in c.entries && !refresh && !Expired(c.entries[proposal], now)
  }

  function Swept(c: Cache, now: int, ttl: int): Cache {
    if now - c.lastSweep >= ttl
    then c.(entries := map p | p in c.entries && !Expired(c.entries[p], now) :: c.entries[p], lastSweep := now)
    else c
  }

  /** The read a caller gets, and the cache afterwards. */
  function Get(c: Cache, proposal: nat, refresh: bool, now: int, ttl: int): (Cache, nat) {
    if Serves(c, proposal, refresh, now) then (c, c.entries[proposal].read)
    else
      var s := Swept(c, now, ttl);
      (s.(entries := s.entries[proposal := Entry(|c.calls|, None)], calls := s.calls + [Read(proposal, now, InFlight)]), |c.calls|)
  }

  predicate IsCurrent(c: Cache, read: nat)
    requires read < |c.calls|
  {
    var p := c.calls[read].proposal;
    p in c.entries && c.entries[p].read == read
  }

  function Resolve(c: Cache, read: nat, votes: seq<ChainVote>, now: int, ttl: int): Cache
    requires read < |c.calls|
  {
    var r := c.calls[read];
    var done := c.(calls := c.calls[read := r.(state := Answered(now, votes))]);
    if IsCurrent(c, read) then done.(entries := c.entries[r.proposal := Entry(read, Some(now + ttl))]) else done
  }

  function Reject(c: Cache, read: nat): Cache
    requires read < |c.calls|
  {
    var r := c.calls[read];
    var done := c.(calls := c.calls[read := r.(state := Rejected)]);
    if IsCurrent(c, read) then done.(entries := map p | p in c.entries && p != r.proposal :: c.entries[p]) else done
  }

  function Invalidate(c: Cache, proposal: nat): Cache {
    c.(entries := map p | p in c.entries && p != proposal :: c.entries[p])
  }

  /** An entry without expiry is a read in flight; one with expiry was answered a
      time-to-live before it. Rejected reads are never kept. */
  ghost predicate CacheInv(c: Cache, ttl: int) {
    forall p :: p in c.entries ==>
      var e := c.entries[p];
      && e.read < |c.calls| && c.calls[e.read].proposal == p
      && match c.calls[e.read].state
         case InFlight => e.expiresAt.None?
         case Answered(at, _) => e.expiresAt == Some(at + ttl)
         case Rejected => false
  }

  /** A settled read keeps its answer. */
  ghost predicate ReadsKept(c: Cache, c': Cache) {
    && |c.calls| <= |c'.calls|
    && forall i :: 0 <= i < |c.calls| ==>
         && c'.calls[i].proposal == c.calls[i].proposal && c'.calls[i].startedAt == c.calls[i].startedAt
         && (!c.calls[i].state.InFlight? ==> c'.calls[i] == c.calls[i])
  }

  /** Whoever asks for a refresh gets a read begun then. Anyone else gets a read that is
      still in flight, or was answered less than the time-to-live ago. A read that is in
      flight and current is shared, never doubled. */
  lemma GetEffect(c: Cache, proposal: nat, refresh: bool, now: int, ttl: int)
    requires CacheInv(c, ttl)
    ensures var (c', id) := Get(c, proposal, refresh, now, ttl);
            && CacheInv(c', ttl) && ReadsKept(c, c')
            && id < |c'.calls| && c'.calls[id].proposal == proposal
            && (refresh ==> id == |c.calls| && c'.calls[id] == Read(proposal, now, InFlight))
            && (match c'.calls[id].state
                case InFlight => true
                case Answered(at, _) => now < at + ttl
                case Rejected => false)
            && (!refresh && proposal in c.entries && c.calls[c.entries[proposal].read].state.InFlight? ==>
                  c' == c && id == c.entries[proposal].read)
  {
    var s := Swept(c, now, ttl);
    assert CacheInv(s, ttl);
  }

  /** Looking one proposal up never costs another its read: entries that have not expired stay,
      and a sweep, at most once per time-to-live, drops only expired ones. */
  lemma OthersAreKept(c: Cache, proposal: nat, refresh: bool, now: int, ttl: int, other: nat)
    requires other != proposal && other in c.entries
    ensures var (c', id) := Get(c, proposal, refresh, now, ttl);
            && (other in c'.entries ==> c'.entries[other] == c.entries[other])
            && (other !in c'.entries ==>
                  c.entries[other].expiresAt.Some? && c.entries[other].expiresAt.value <= now && ttl <= now - c.lastSweep && c'.lastSweep == now)
            && (c' != c && ttl <= now - c.lastSweep && c.entries[other].expiresAt.Some? && c.entries[other].expiresAt.value <= now ==> other !in c'.entries)
  {
    var (c', id) := Get(c, proposal, refresh, now, ttl);
    assert |c'.calls| == |c.calls| ==> c' == c;
  }

  /** An answer or a rejection is only about its own read: the entry is stamped or dropped if
      it still is that read, and every other entry stays. */
  lemma SettlingKeepsOthers(c: Cache, read: nat, votes: seq<ChainVote>, now: int, ttl: int, p: nat)
    requires read < |c.calls| && p in c.entries
    ensures var mine := p == c.calls[read].proposal && c.entries[p].read == read;
            && p in Resolve(c, read, votes, now, ttl).entries
            && Resolve(c, read, votes, now, ttl).entries[p] == (if mine then Entry(read, Some(now + ttl)) else c.entries[p])
            && (p in Reject(c, read).entries <==> !mine)
            && (!mine ==> Reject(c, read).entries[p] == c.entries[p])
  {
  }

  lemma ResolveEffect(c: Cache, read: nat, votes: seq<ChainVote>, now: int, ttl: int)
    requires CacheInv(c, ttl) && read < |c.calls| && c.calls[read].state.InFlight?
    ensures var c' := Resolve(c, read, votes, now, ttl); CacheInv(c', ttl) && ReadsKept(c, c')
  {
  }

  lemma RejectEffect(c: Cache, read: nat, ttl: int)
    requires CacheInv(c, ttl) && read < |c.calls| && c.calls[read].state.InFlight?
    ensures var c' := Reject(c, read); CacheInv(c', ttl) && ReadsKept(c, c')
  {
  }

  class VotesCache {
    var entries: map<nat, Entry>
    var calls: seq<Read>
    var lastSweep: int
    const ttl: int

    function View(): Cache
      reads this
    {
      Cache(entries, calls, lastSweep)
    }

    constructor (ttl: int)
      ensures this.ttl == ttl && View() == Cache(map[], [], 0) && CacheInv(View(), ttl)
    {
      this.ttl, entries, calls, lastSweep := ttl, map[], [], 0;
    }

    method Lookup(proposal: nat, refresh: bool, now: int) returns (read: nat)
      requires CacheInv(View(), ttl)
      modifies this
      ensures (View(), read) == Get(old(View()), proposal, refresh, now, ttl)
      ensures CacheInv(View(), ttl) && ReadsKept(old(View()), View())
      ensures refresh ==> read == |old(calls)| && calls[read] == Read(proposal, now, InFlight)
    {
      GetEffect(View(), proposal, refresh, now, ttl);
      if proposal in entries && !refresh && !Expired(entries[proposal], now) {
        return entries[proposal].read;
      }
      if now - lastSweep >= ttl {
        entries := map p | p in entries && !Expired(entries[p], now) :: entries[p];
        lastSweep := now;
      }
      read := |calls|;
      calls := calls + [Read(proposal, now, InFlight)];
      entries := entries[proposal := Entry(read, None)];
    }

    method Settle(read: nat, votes: Option<seq<ChainVote>>, now: int)
      requires CacheInv(View(), ttl) && read < |calls| && calls[read].state.InFlight?
      modifies this
      ensures View() == if votes.Some? then Resolve(old(View()), read, votes.value, now, ttl) else Reject(old(View()), read)
      ensures CacheInv(View(), ttl) && ReadsKept(old(View()), View())
    {
      ResolveEffect(View(), read, if votes.Some? then votes.value else [], now, ttl);
      RejectEffect(View(), read, ttl);
      var p := calls[read].proposal;
      var current := p in entries && entries[p].read == read;
      if votes.Some? {
        if current { entries := entries[p := Entry(read, Some(now + ttl))]; }
        calls := calls[read := calls[read].(state := Answered(now, votes.value))];
      } else {
        if current { entries := map q | q in entries && q != p :: entries[q]; }
        calls := calls[read := calls[read].(state := Rejected)];
      }
    }

    method Forget(proposal: nat)
      requires CacheInv(View(), ttl)
      modifies this
      ensures View() == Invalidate(old(View()), proposal) && CacheInv(View(), ttl)
    {
      entries := map p | p in entries && p != proposal :: entries[p];
    }
  }
}
