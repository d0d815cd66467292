/**
 The channel's entry (client_backend/internal/server/channel.go): the handshakes
 under way, oldest first, and how many of them each source has. Every newcomer is
 taken; room is made first within its own source, then within the entry.
 */
module Admission {
  import opened Common

  /** This machine is one source, whichever address it speaks from. */
  datatype Source = Local | Elsewhere(name: string)

  datatype Pending = Pending(id: nat, source: Source)

  function Count(ps: seq<Pending>, s: Source): (n: nat)
    ensures n <= |ps|
  {
    if ps == [] then 0 else Count(ps[..|ps| - 1], s) + if ps[|ps| - 1].source == s then 1 else 0
  }

  /** How many have to go so that one more is within the limit. */
  function Excess(n: nat, limit: int): (k: nat)
    ensures k <= n
    ensures limit >= 1 ==> n - k + 1 <= limit
    ensures limit >= 1 && n <= limit ==> k <= 1
  {
    if n > 0 && n >= limit then Min(n, n - limit + 1) else 0
  }

  function Removed(ps: seq<Pending>, i: nat): seq<Pending>
    requires i < |ps|
  {
    ps[..i] + ps[i + 1..]
  }

  /** Where the first handshake of a source stands; the length when it has none. */
  function First(ps: seq<Pending>, s: Source): (i: nat)
    ensures i <= |ps|
    ensures forall j :: 0 <= j < i ==> ps[j].source != s
    ensures i < |ps| ==> ps[i].source == s
  {
    if ps == [] then 0 else if ps[0].source == s then 0 else 1 + First(ps[1..], s)
  }

  /** The list without the `k` oldest of one source. */
  function WithoutOldest(ps: seq<Pending>, s: Source, k: nat): seq<Pending> {
    if k == 0 || First(ps, s) == |ps| then ps else WithoutOldest(Removed(ps, First(ps, s)), s, k - 1)
  }

  /** The `k` oldest of one source, oldest first. */
  function Oldest(ps: seq<Pending>, s: Source, k: nat): seq<Pending> {
    if k == 0 || First(ps, s) == |ps| then [] else [ps[First(ps, s)]] + Oldest(Removed(ps, First(ps, s)), s, k - 1)
  }

  lemma {:induction false} CountConcat(a: seq<Pending>, b: seq<Pending>, s: Source)
    ensures Count(a + b, s) == Count(a, s) + Count(b, s)
  {
    if b == [] {
      assert a + b == a;
    } else {
      assert (a + b)[..|a + b| - 1] == a + b[..|b| - 1];
      CountConcat(a, b[..|b| - 1], s);
    }
  }

  lemma CountOne(p: Pending, s: Source)
    ensures Count([p], s) == if p.source == s then 1 else 0
  {
    assert [p][..0] == [];
  }

  lemma CountRemoved(ps: seq<Pending>, i: nat, s: Source)
    requires i < |ps|
    ensures Count(Removed(ps, i), s) == Count(ps, s) - if ps[i].source == s then 1 else 0
  {
    assert ps == ps[..i] + [ps[i]] + ps[i + 1..];
    CountConcat(ps[..i] + [ps[i]], ps[i + 1..], s);
    CountConcat(ps[..i], [ps[i]], s);
    CountOne(ps[i], s);
    CountConcat(ps[..i], ps[i + 1..], s);
  }

  lemma {:induction false} NoneOf(ps: seq<Pending>, s: Source)
    requires forall j :: 0 <= j < |ps| ==> ps[j].source != s
    ensures Count(ps, s) == 0
  {
    if ps != [] {
      NoneOf(ps[..|ps| - 1], s);
    }
  }

  /** A source that has handshakes has an oldest one. */
  lemma CountedIsThere(ps: seq<Pending>, s: Source)
    requires Count(ps, s) > 0
    ensures First(ps, s) < |ps|
  {
    if First(ps, s) == |ps| {
      NoneOf(ps, s);
    }
  }

  // ---- what the limits come to ----

  datatype Limits = Limits(pending: int, perSource: int, local: int)

  function Share(l: Limits, s: Source): int {
    if s.Local? then l.local else l.perSource
  }

  /** Every limit is at least one, and what is under way is within all of them. */
  ghost predicate Within(l: Limits, ps: seq<Pending>) {
    && l.pending >= 1 && l.perSource >= 1 && l.local >= 1
    && |ps| <= l.pending
    && forall s :: Count(ps, s) <= Share(l, s)
  }

  /** What the entry holds after it took `p`, and whom it cut. */
  function Admitted(l: Limits, ps: seq<Pending>, p: Pending): (r: (seq<Pending>, seq<Pending>))
  {
    var k := Excess(Count(ps, p.source), Share(l, p.source));
    var own := WithoutOldest(ps, p.source, k);
    var n := Excess(|own|, l.pending);
    (own[n..] + [p], Oldest(ps, p.source, k) + own[..n])
  }

  lemma NoneLeft(ps: seq<Pending>, s: Source)
    ensures WithoutOldest(ps, s, 0) == ps && Oldest(ps, s, 0) == []
  {
  }

  lemma OldestStep(ps: seq<Pending>, s: Source, k: nat)
    requires k > 0 && Count(ps, s) > 0
    ensures First(ps, s) < |ps|
    ensures var rest := Removed(ps, First(ps, s));
            && WithoutOldest(ps, s, k) == WithoutOldest(rest, s, k - 1)
            && Oldest(ps, s, k) == [ps[First(ps, s)]] + Oldest(rest, s, k - 1)
            && Count(rest, s) == Count(ps, s) - 1
  {
    CountedIsThere(ps, s);
    CountRemoved(ps, First(ps, s), s);
  }

  lemma OneLess(ps: seq<Pending>, s: Source, k: nat)
    requires k <= 1 && (k == 1 ==> Count(ps, s) > 0)
    ensures |WithoutOldest(ps, s, k)| == |ps| - k && (k == 0 ==> WithoutOldest(ps, s, k) == ps)
    ensures k == 1 ==> First(ps, s) < |ps| && WithoutOldest(ps, s, k) == ps[..First(ps, s)] + ps[First(ps, s) + 1..]
    ensures Oldest(ps, s, k) == if k == 1 then [ps[First(ps, s)]] else []
    ensures forall t :: Count(WithoutOldest(ps, s, k), t) == Count(ps, t) - if t == s then k else 0
  {
    if k == 1 {
      CountedIsThere(ps, s);
      var rest := Removed(ps, First(ps, s));
      assert WithoutOldest(rest, s, 0) == rest;
      assert Oldest(rest, s, 0) == [];
      forall t
        ensures Count(rest, t) == Count(ps, t) - if t == s then 1 else 0
      {
        CountRemoved(ps, First(ps, s), t);
      }
    }
  }

  lemma CountTail(ps: seq<Pending>, n: nat, s: Source)
    requires n <= |ps|
    ensures Count(ps[n..], s) <= Count(ps, s)
  {
    assert ps == ps[..n] + ps[n..];
    CountConcat(ps[..n], ps[n..], s);
  }

  lemma {:induction false} WithoutOldestCounts(ps: seq<Pending>, s: Source, k: nat)
    requires k <= Count(ps, s)
    ensures Count(WithoutOldest(ps, s, k), s) == Count(ps, s) - k
    decreases k
  {
    hide Count, First, Removed;
    if k == 0 {
      NoneLeft(ps, s);
    } else {
      OldestStep(ps, s, k);
      WithoutOldestCounts(Removed(ps, First(ps, s)), s, k - 1);
    }
  }

  /** Whatever was under way, a limit shrunk meanwhile included, the entry and the newcomer's source come out at their limits. */
  lemma ComesOutAtTheLimit(l: Limits, ps: seq<Pending>, p: Pending)
    requires l.pending >= 1 && Share(l, p.source) >= 1
    ensures |Admitted(l, ps, p).0| <= l.pending
    ensures Count(Admitted(l, ps, p).0, p.source) <= Share(l, p.source)
  {
    hide WithoutOldest, Oldest, Count;
    var k := Excess(Count(ps, p.source), Share(l, p.source));
    var own := WithoutOldest(ps, p.source, k);
    var n := Excess(|own|, l.pending);
    WithoutOldestCounts(ps, p.source, k);
    CountTail(own, n, p.source);
    CountConcat(own[n..], [p], p.source);
    CountOne(p, p.source);
  }

  lemma LimitsHold(l: Limits, ps: seq<Pending>, p: Pending)
    requires Within(l, ps)
    ensures Within(l, Admitted(l, ps, p).0)
  {
    hide WithoutOldest, Oldest, First, Count;
    var k := Excess(Count(ps, p.source), Share(l, p.source));
    OneLess(ps, p.source, k);
    var own := WithoutOldest(ps, p.source, k);
    var n := Excess(|own|, l.pending);
    forall s
      ensures Count(own[n..] + [p], s) <= Share(l, s)
    {
      CountTail(own, n, s);
      CountConcat(own[n..], [p], s);
      CountOne(p, s);
    }
  }

  /**
   Within the limits, one newcomer costs at most one handshake: its own source's
   oldest when the source is at its share, and then nobody else; the oldest of all
   only when the source had room and the entry had none. Everybody else stays in
   the order they came, the newcomer last, and the limits hold after.
   */
  lemma OneForOne(l: Limits, ps: seq<Pending>, p: Pending)
    requires Within(l, ps)
    ensures var (after, cut) := Admitted(l, ps, p);
      var share := if p.source == Local then l.local else l.perSource;
      && Within(l, after)
      && (Count(ps, p.source) == share ==>
            var i := First(ps, p.source);
            i < |ps| && cut == [ps[i]] && after == ps[..i] + ps[i + 1..] + [p])
      && (Count(ps, p.source) < share && |ps| == l.pending ==> cut == [ps[0]] && after == ps[1..] + [p])
      && (Count(ps, p.source) < share && |ps| < l.pending ==> cut == [] && after == ps + [p])
  {
    LimitsHold(l, ps, p);
    AtItsShare(l, ps, p);
    BelowItsShare(l, ps, p);
    hide Count, WithoutOldest, Oldest, First;
  }

  /** A source at its share gives up its own oldest, which frees the place the newcomer takes. */
  lemma AtItsShare(l: Limits, ps: seq<Pending>, p: Pending)
    requires l.pending >= 1 && |ps| <= l.pending && Share(l, p.source) >= 1
    ensures Count(ps, p.source) == Share(l, p.source) ==>
              var i := First(ps, p.source);
              i < |ps| && Admitted(l, ps, p).1 == [ps[i]] && Admitted(l, ps, p).0 == ps[..i] + ps[i + 1..] + [p]
  {
    hide Count, WithoutOldest, Oldest, First;
    if Count(ps, p.source) == Share(l, p.source) {
      OneLess(ps, p.source, 1);
      CountedIsThere(ps, p.source);
      var own := WithoutOldest(ps, p.source, 1);
      assert Excess(Count(ps, p.source), Share(l, p.source)) == 1;
      assert Excess(|own|, l.pending) == 0;
      assert own[..0] == [];
    }
  }

  lemma BelowItsShare(l: Limits, ps: seq<Pending>, p: Pending)
    requires l.pending >= 1 && |ps| <= l.pending && Count(ps, p.source) <= Share(l, p.source)
    ensures Count(ps, p.source) < Share(l, p.source) ==>
              if |ps| == l.pending then Admitted(l, ps, p) == (ps[1..] + [p], [ps[0]]) else Admitted(l, ps, p) == (ps + [p], [])
  {
    hide Count, WithoutOldest, Oldest, First;
    if Count(ps, p.source) < Share(l, p.source) {
      OneLess(ps, p.source, 0);
      assert Excess(Count(ps, p.source), Share(l, p.source)) == 0;
      var n := Excess(|ps|, l.pending);
      assert Admitted(l, ps, p) == (ps[n..] + [p], [] + ps[..n]);
      if |ps| == l.pending {
        assert n == 1 && ps[..1] == [ps[0]] && [] + ps[..1] == ps[..1];
      } else {
        assert n == 0 && ps[0..] == ps && [] + ps[..0] == [];
      }
    }
  }

  lemma {:induction false} OldestConserved(ps: seq<Pending>, s: Source, k: nat)
    ensures multiset(WithoutOldest(ps, s, k)) + multiset(Oldest(ps, s, k)) == multiset(ps)
    decreases k
  {
    if k > 0 && First(ps, s) < |ps| {
      var rest, x := Removed(ps, First(ps, s)), ps[First(ps, s)];
      OldestConserved(rest, s, k - 1);
      RemovedConserved(ps, First(ps, s));
      assert WithoutOldest(ps, s, k) == WithoutOldest(rest, s, k - 1);
      assert Oldest(ps, s, k) == [x] + Oldest(rest, s, k - 1);
      hide WithoutOldest, Oldest, First, Removed;
      assert multiset([x] + Oldest(rest, s, k - 1)) == multiset{x} + multiset(Oldest(rest, s, k - 1));
    }
  }

  lemma RemovedConserved(ps: seq<Pending>, i: nat)
    requires i < |ps|
    ensures multiset(Removed(ps, i)) + multiset{ps[i]} == multiset(ps)
  {
    assert ps == ps[..i] + [ps[i]] + ps[i + 1..];
  }

  /** Nobody is lost and nobody appears: who was under way and the newcomer are under way or cut. */
  lemma Conserved(l: Limits, ps: seq<Pending>, p: Pending)
    ensures var (after, cut) := Admitted(l, ps, p); multiset(after) + multiset(cut) == multiset(ps) + multiset{p}
  {
    hide Count, WithoutOldest, Oldest;
    var k := Excess(Count(ps, p.source), Share(l, p.source));
    var own := WithoutOldest(ps, p.source, k);
    var n := Excess(|own|, l.pending);
    OldestConserved(ps, p.source, k);
    assert own == own[..n] + own[n..];
    assert multiset(own) == multiset(own[..n]) + multiset(own[n..]);
  }

  /** The count is the number of places the source has in the list. */
  lemma {:induction false} CountIsTheNumber(ps: seq<Pending>, s: Source)
    ensures Count(ps, s) == |PlacesOf(ps, s)|
  {
    if ps == [] {
      assert PlacesOf(ps, s) == {};
    } else {
      var n := |ps| - 1;
      CountIsTheNumber(ps[..n], s);
      assert PlacesOf(ps, s) == if ps[n].source == s then PlacesOf(ps[..n], s) + {n} else PlacesOf(ps[..n], s);
    }
  }

  function PlacesOf(ps: seq<Pending>, s: Source): set<nat> {
    set i: nat | i < |ps| && ps[i].source == s
  }

  lemma FewerWithin(l: Limits, ps: seq<Pending>, i: nat)
    requires i < |ps|
    ensures Within(l, ps) ==> Within(l, Removed(ps, i))
  {
    forall s
      ensures Count(Removed(ps, i), s) <= Count(ps, s)
    {
      CountRemoved(ps, i, s);
    }
  }

  function Ids(ps: seq<Pending>): set<nat> {
    set p | p in ps :: p.id
  }

  datatype Step = Arrive(p: Pending) | Over(id: nat)

  /** The entry: the list, the counts, and, as a record, which handshakes were cut and which left by themselves. */
  class Entry {
    var limits: Limits
    var pending: seq<Pending>
    var bySource: map<Source, int>
    var taken: set<nat>
    var cutIds: set<nat>
    var leftIds: set<nat>

    constructor (l: Limits)
      ensures Valid() && limits == l && pending == [] && taken == {}
    {
      limits, pending, bySource := l, [], map[];
      taken, cutIds, leftIds := {}, {}, {};
    }

    /** The counts are the list's, a source with none is not counted at all. */
    ghost predicate Counted()
      reads this`pending, this`bySource
    {
      forall s :: (s in bySource <==> Count(pending, s) > 0) && (s in bySource ==> bySource[s] == Count(pending, s))
    }

    ghost predicate Listed()
      reads this
    {
      && (forall i, j :: 0 <= i < j < |pending| ==> pending[i].id != pending[j].id)
      && (forall i :: 0 <= i < |pending| ==> pending[i].id in taken && pending[i].id !in cutIds && pending[i].id !in leftIds)
    }

    /** Every handshake taken is under way, was cut, or left; never two of them. */
    ghost predicate Valid()
      reads this
    {
      && Counted() && Listed()
      && cutIds !! leftIds && cutIds <= taken && leftIds <= taken
      && forall id :: id in taken && id !in cutIds && id !in leftIds ==> UnderWay(id)
    }

    ghost predicate UnderWay(id: nat)
      reads this`pending
    {
      exists i :: 0 <= i < |pending| && pending[i].id == id
    }

    /** Takes the handshake at `i` out of the list and out of its source's count. */
    method TakeOut(i: nat)
      requires i < |pending| && Counted()
      modifies this`pending, this`bySource
      ensures pending == Removed(old(pending), i) && Counted()
    {
      var p := pending[i];
      forall s
        ensures Count(Removed(pending, i), s) == Count(pending, s) - if p.source == s then 1 else 0
      {
        CountRemoved(pending, i, s);
      }
      hide Count;
      pending := pending[..i] + pending[i + 1..];
      bySource := bySource[p.source := bySource[p.source] - 1];
      if bySource[p.source] <= 0 {
        bySource := bySource - {p.source};
      }
    }

    method ForgetLocked(i: nat, cutting: bool)
      requires i < |pending| && Valid()
      modifies this
      ensures Valid() && pending == Removed(old(pending), i)
      ensures limits == old(limits) && taken == old(taken)
      ensures cutIds == if cutting then old(cutIds) + {old(pending)[i].id} else old(cutIds)
      ensures leftIds == if cutting then old(leftIds) else old(leftIds) + {old(pending)[i].id}
    {
      hide Counted;
      var id := pending[i].id;
      ghost var start := pending;
      TakeOut(i);
      if cutting {
        cutIds := cutIds + {id};
      } else {
        leftIds := leftIds + {id};
      }
      forall other | other in taken && other !in cutIds && other !in leftIds
        ensures UnderWay(other)
      {
        var j :| 0 <= j < |start| && start[j].id == other;
        assert pending[if j < i then j else j - 1].id == other;
      }
    }

    /** The handshake of a source that has waited longest; the walk finds one whenever the count says there is one. */
    method OldestFromLocked(s: Source) returns (i: nat)
      requires Counted()
      ensures i == First(pending, s)
      ensures i < |pending| <==> s in bySource
    {
      i := 0;
      while i < |pending| && pending[i].source != s
        invariant i <= |pending|
        invariant forall j :: 0 <= j < i ==> pending[j].source != s
      {
        i := i + 1;
      }
      if i == |pending| {
        NoneOf(pending, s);
      } else {
        CountRemoved(pending, i, s);
      }
      if s in bySource {
        CountedIsThere(pending, s);
      }
    }

    /** Makes room within one source. */
    method CutOwn(s: Source) returns (cut: seq<Pending>)
      requires Valid()
      modifies this
      ensures Valid() && limits == old(limits) && taken == old(taken) && leftIds == old(leftIds)
      ensures cutIds == old(cutIds) + Ids(cut)
      ensures var k := Excess(Count(old(pending), s), Share(limits, s));
              pending == WithoutOldest(old(pending), s, k) && cut == Oldest(old(pending), s, k)
    {
      ghost var start := pending;
      ghost var k := Excess(Count(start, s), Share(limits, s));
      hide Count, WithoutOldest, Oldest, First, Removed, Listed;
      cut := [];
      while s in bySource && bySource[s] >= Share(limits, s)
        invariant Valid() && limits == old(limits) && taken == old(taken) && leftIds == old(leftIds)
        invariant cutIds == old(cutIds) + Ids(cut)
        invariant |cut| <= k && Count(pending, s) == Count(start, s) - |cut|
        invariant WithoutOldest(start, s, k) == WithoutOldest(pending, s, k - |cut|)
        invariant Oldest(start, s, k) == cut + Oldest(pending, s, k - |cut|)
        decreases k - |cut|
      {
        var i := OldestFromLocked(s);
        OldestStep(pending, s, k - |cut|);
        cut := cut + [pending[i]];
        ForgetLocked(i, true);
      }
      assert |cut| == k;
      NoneLeft(pending, s);
    }

    /** Makes room within the entry. */
    method CutOldest() returns (cut: seq<Pending>)
      requires Valid()
      modifies this
      ensures Valid() && limits == old(limits) && taken == old(taken) && leftIds == old(leftIds)
      ensures cutIds == old(cutIds) + Ids(cut)
      ensures var n := Excess(|old(pending)|, limits.pending);
              pending == old(pending)[n..] && cut == old(pending)[..n]
    {
      ghost var start := pending;
      hide Listed, Counted;
      cut := [];
      while |pending| > 0 && |pending| >= limits.pending
        invariant Valid() && limits == old(limits) && taken == old(taken) && leftIds == old(leftIds)
        invariant cutIds == old(cutIds) + Ids(cut)
        invariant |cut| <= Excess(|start|, limits.pending)
        invariant pending == start[|cut|..] && cut == start[..|cut|]
        decreases |pending|
      {
        cut := cut + [pending[0]];
        ForgetLocked(0, true);
      }
    }

    /** Takes a new connection, whoever it is from; whom it cut is for the caller to close. */
    method Admit(p: Pending) returns (cut: seq<Pending>)
      requires Valid() && p.id !in taken
      modifies this
      ensures Valid() && limits == old(limits)
      ensures (pending, cut) == Admitted(limits, old(pending), p)
      ensures limits.pending >= 1 && limits.perSource >= 1 && limits.local >= 1 ==>
        |pending| <= limits.pending && Count(pending, p.source) <= if p.source == Local then limits.local else limits.perSource
      ensures multiset(pending) + multiset(cut) == multiset(old(pending)) + multiset{p}
      ensures taken == old(taken) + {p.id} && leftIds == old(leftIds) && cutIds == old(cutIds) + Ids(cut)
    {
      hide Count, WithoutOldest, Oldest, Counted, Listed, UnderWay;
      var own := CutOwn(p.source);
      var rest := CutOldest();
      cut := own + rest;
      Append(p);
      assert (pending, cut) == Admitted(limits, old(pending), p);
      Conserved(limits, old(pending), p);
      hide Admitted, Excess;
      if limits.pending >= 1 && Share(limits, p.source) >= 1 {
        ComesOutAtTheLimit(limits, old(pending), p);
      }
    }

    method PutIn(p: Pending)
      requires Counted()
      modifies this`pending, this`bySource
      ensures Counted() && pending == old(pending) + [p]
    {
      forall s
        ensures Count(pending + [p], s) == Count(pending, s) + if p.source == s then 1 else 0
      {
        CountConcat(pending, [p], s);
        CountOne(p, s);
      }
      hide Count;
      bySource := bySource[p.source := (if p.source in bySource then bySource[p.source] else 0) + 1];
      pending := pending + [p];
    }

    method Append(p: Pending)
      requires Valid() && p.id !in taken
      modifies this`pending, this`bySource, this`taken
      ensures Valid() && pending == old(pending) + [p] && taken == old(taken) + {p.id}
    {
      hide Counted;
      ghost var start := pending;
      PutIn(p);
      taken := taken + {p.id};
      assert pending[|start|].id == p.id;
      forall id | id in taken && id !in cutIds && id !in leftIds
        ensures UnderWay(id)
      {
        if id != p.id {
          var j :| 0 <= j < |start| && start[j].id == id;
          assert pending[j].id == id;
        }
      }
    }

    /**
     A handshake that is over leaves, unless it was cut meanwhile: of those taken and
     not yet gone, exactly the ones never cut are told they were still there.
     */
    method Leave(id: nat) returns (stillThere: bool)
      requires Valid() && id in taken && id !in leftIds
      modifies this
      ensures Valid() && limits == old(limits) && taken == old(taken) && cutIds == old(cutIds)
      ensures stillThere <==> id !in cutIds
      ensures leftIds == if stillThere then old(leftIds) + {id} else old(leftIds)
      ensures !stillThere ==> pending == old(pending)
      ensures stillThere ==> exists i :: 0 <= i < |old(pending)| && old(pending)[i].id == id && pending == Removed(old(pending), i)
    {
      var i := 0;
      while i < |pending| && pending[i].id != id
        invariant i <= |pending|
        invariant forall j :: 0 <= j < i ==> pending[j].id != id
      {
        i := i + 1;
      }
      stillThere := i < |pending|;
      if stillThere {
        ForgetLocked(i, false);
      }
    }

    /** Any run of arrivals and departures: the counts agree, and within the limits it stays within them. */
    method AnyRun(steps: seq<Step>)
      requires Valid()
      modifies this
      ensures Valid() && limits == old(limits)
      ensures Within(limits, old(pending)) ==> Within(limits, pending)
    {
      for k := 0 to |steps|
        invariant Valid() && limits == old(limits)
        invariant Within(limits, old(pending)) ==> Within(limits, pending)
      {
        ghost var before := pending;
        match steps[k] {
          case Arrive(p) =>
            if p.id !in taken {
              ghost var within := Within(limits, before);
              if within { OneForOne(limits, before, p); }
              var _ := Admit(p);
            }
          case Over(id) =>
            if id in taken && id !in leftIds {
              var stillThere := Leave(id);
              if stillThere {
                ghost var i :| 0 <= i < |before| && pending == Removed(before, i);
                FewerWithin(limits, before, i);
              }
            }
        }
      }
    }
  }
}
