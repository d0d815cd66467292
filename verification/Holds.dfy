/**
 What a connection of a key nobody paired is held to
 (client_backend/internal/server/unpaired.go, with dropDevice and untrack of
 client_backend/internal/server/server.go): a place among at most `cap`, or the
 wait on one pairing request, each under a numbered deadline.
 */
module Holds {
  import opened Common

  /** What a deadline was armed for. */
  datatype Kind = Place | Wait(request: string)

  /** A deadline; `fired` once its callback has started and waits for the lock. */
  datatype Timer = Timer(gen: nat, fired: bool)

  datatype Hold = Hold(placed: bool, waitsOn: string, deadline: Option<Timer>, gen: nat)

  /**
   The registry's part in it: the places oldest first, who waits on which request,
   what each connection is held to, the callbacks that have started, and, as a
   record no step reads, what each deadline was armed for.
   */
  datatype Room = Room(
    places: seq<nat>,
    waits: map<string, nat>,
    held: map<nat, Hold>,
    pending: set<(nat, nat)>,
    armed: map<(nat, nat), Kind>)

  function At(r: Room, c: nat): Hold {
    if c in r.held then r.held[c] else Hold(false, "", None, 0)
  }

  predicate Free(h: Hold) {
    !h.placed && h.waitsOn == ""
  }

  function KindOf(h: Hold): Kind {
    if h.placed then Place else Wait(h.waitsOn)
  }

  function Without(s: seq<nat>, c: nat): seq<nat> {
    if s == [] then [] else if s[0] == c then Without(s[1..], c) else [s[0]] + Without(s[1..], c)
  }

  /** A connection let go of whatever it was held to; its number moves on either way. */
  function LetGoOf(r: Room, c: nat): Room {
    var h := At(r, c);
    r.(places := Without(r.places, c),
       waits := if h.waitsOn != "" then r.waits - {h.waitsOn} else r.waits,
       held := r.held[c := Hold(false, "", None, h.gen + 1)])
  }

  /** A connection held to nothing made the newest place. */
  function PlacedLast(r: Room, c: nat): Room {
    var h := At(r, c);
    r.(places := r.places + [c],
       held := r.held[c := Hold(true, h.waitsOn, Some(Timer(h.gen + 1, false)), h.gen + 1)],
       armed := r.armed[(c, h.gen + 1) := Place])
  }

  /** A connection held to nothing made the holder of a request's wait. */
  function WaitingOn(r: Room, c: nat, q: string): Room {
    var h := At(r, c);
    r.(waits := r.waits[q := c],
       held := r.held[c := Hold(h.placed, q, Some(Timer(h.gen + 1, false)), h.gen + 1)],
       armed := r.armed[(c, h.gen + 1) := Wait(q)])
  }

  /** How many of the oldest have to go so that one more is at most the cap. */
  function Excess(r: Room, cap: int): nat {
    if |r.places| > 0 && |r.places| >= cap then Min(|r.places|, |r.places| - cap + 1) else 0
  }

  function LetGoEach(r: Room, cs: seq<nat>): Room {
    if cs == [] then r else LetGoOf(LetGoEach(r, cs[..|cs| - 1]), cs[|cs| - 1])
  }

  function PlaceOf(r: Room, c: nat, cap: int): Room {
    PlacedLast(LetGoEach(r, r.places[..Excess(r, cap)]), c)
  }

  /** The wait on `q` moved to `c`, whoever held it let go of; nothing for a connection held to nothing. */
  function AwaitOf(r: Room, c: nat, q: string): Room {
    if Free(At(r, c)) then r
    else
      var a := LetGoOf(r, c);
      WaitingOn(if q in a.waits then LetGoOf(a, a.waits[q]) else a, c, q)
  }

  function EndWaitOf(r: Room, q: string, allowed: bool, cap: int): Room {
    if q !in r.waits then r
    else
      var a := LetGoOf(r, r.waits[q]);
      if allowed then a else PlaceOf(a, r.waits[q], cap)
  }

  // ---- what every reachable room keeps ----

  predicate NoDup(s: seq<nat>) {
    forall i, j :: 0 <= i < j < |s| ==> s[i] != s[j]
  }

  /** A connection in a place or a wait has one deadline, armed for exactly that, numbered as its hold is. */
  predicate HoldOk(r: Room, c: nat) {
    var h := At(r, c);
    && !(h.placed && h.waitsOn != "")
    && (Free(h) <==> h.deadline.None?)
    && (h.deadline.Some? ==>
          && h.deadline.value.gen == h.gen
          && (c, h.gen) in r.armed && r.armed[(c, h.gen)] == KindOf(h)
          && (h.deadline.value.fired <==> (c, h.gen) in r.pending))
  }

  ghost predicate PlacesOk(r: Room) {
    NoDup(r.places) && forall c: nat :: c in r.places <==> At(r, c).placed
  }

  ghost predicate WaitsOk(r: Room) {
    && (forall q :: q in r.waits ==> q != "" && At(r, r.waits[q]).waitsOn == q)
    && (forall c: nat :: At(r, c).waitsOn != "" ==> At(r, c).waitsOn in r.waits && r.waits[At(r, c).waitsOn] == c)
  }

  /** No number is ever used again: callbacks and records carry numbers up to the connection's own. */
  ghost predicate NumbersOk(r: Room) {
    && (forall c: nat, g: nat :: (c, g) in r.pending ==> g <= At(r, c).gen)
    && (forall c: nat, g: nat :: (c, g) in r.pending && g == At(r, c).gen ==> At(r, c).deadline.Some?)
    && (forall c: nat, g: nat :: (c, g) in r.armed ==> g <= At(r, c).gen)
  }

  ghost predicate Ok(r: Room) {
    PlacesOk(r) && WaitsOk(r) && NumbersOk(r) && forall c: nat :: HoldOk(r, c)
  }

  // ---- lists ----

  lemma NoDupFront(x: nat, s: seq<nat>)
    requires NoDup(s) && x !in s
    ensures NoDup([x] + s)
  {
    var all := [x] + s;
    forall i, j | 0 <= i < j < |all|
      ensures all[i] != all[j]
    {
      assert all[j] == s[j - 1] && s[j - 1] in s;
    }
  }

  lemma {:induction false} WithoutSpec(s: seq<nat>, c: nat)
    requires NoDup(s)
    ensures NoDup(Without(s, c)) && (forall d: nat :: d in Without(s, c) <==> d in s && d != c)
    ensures c !in s ==> Without(s, c) == s
    ensures |Without(s, c)| <= |s|
  {
    if s != [] {
      WithoutSpec(s[1..], c);
      assert forall d: nat :: d in s <==> d == s[0] || d in s[1..];
      assert s == [s[0]] + s[1..];
      if s[0] != c {
        NoDupFront(s[0], Without(s[1..], c));
      }
    }
  }

  /** The others stay in their order. */
  lemma {:induction false} WithoutKeepsOrder(s: seq<nat>, i: nat)
    requires NoDup(s) && i < |s|
    ensures Without(s, s[i]) == s[..i] + s[i + 1..]
  {
    WithoutSpec(s[1..], s[i]);
    if i == 0 {
      assert s[0] !in s[1..];
    } else {
      WithoutKeepsOrder(s[1..], i - 1);
      assert s[1..][i..] == s[i + 1..];
      assert s[..i] == [s[0]] + s[1..][..i - 1];
    }
  }

  lemma OldestGone(s: seq<nat>)
    requires NoDup(s) && s != []
    ensures Without(s, s[0]) == s[1..]
  {
    assert s[0] !in s[1..];
    WithoutSpec(s[1..], s[0]);
  }

  // ---- each change keeps the room in order ----

  lemma LetGoKeeps(r: Room, c: nat)
    requires Ok(r)
    ensures Ok(LetGoOf(r, c)) && Free(At(LetGoOf(r, c), c)) && At(LetGoOf(r, c), c).gen == At(r, c).gen + 1
    ensures forall d: nat :: d != c ==> At(LetGoOf(r, c), d) == At(r, d)
    ensures |LetGoOf(r, c).places| <= |r.places|
  {
    WithoutSpec(r.places, c);
    var after := LetGoOf(r, c);
    assert HoldOk(r, c);
    forall d: nat
      ensures HoldOk(after, d)
    {
      assert HoldOk(r, d);
    }
  }

  lemma PlacedKeeps(r: Room, c: nat)
    requires Ok(r) && Free(At(r, c))
    ensures Ok(PlacedLast(r, c))
    ensures forall d: nat :: d != c ==> At(PlacedLast(r, c), d) == At(r, d)
  {
    var after := PlacedLast(r, c);
    assert c !in r.places;
    forall d: nat
      ensures HoldOk(after, d)
    {
      assert HoldOk(r, d);
    }
  }

  lemma WaitingKeeps(r: Room, c: nat, q: string)
    requires Ok(r) && Free(At(r, c)) && q != "" && q !in r.waits
    ensures Ok(WaitingOn(r, c, q))
    ensures forall d: nat :: d != c ==> At(WaitingOn(r, c, q), d) == At(r, d)
  {
    var after := WaitingOn(r, c, q);
    forall d: nat
      ensures HoldOk(after, d)
    {
      assert HoldOk(r, d);
    }
  }

  /** Letting the oldest `k` places go takes them and nobody else, and no wait. */
  lemma {:induction false} OldestLetGo(r: Room, k: nat)
    requires Ok(r) && k <= |r.places|
    ensures var after := LetGoEach(r, r.places[..k]);
            && Ok(after)
            && after.places == r.places[k..] && after.waits == r.waits
            && (forall d: nat :: d !in r.places[..k] ==> At(after, d) == At(r, d))
            && (forall d: nat :: d in r.places[..k] ==> Free(At(after, d)))
  {
    if k > 0 {
      OldestLetGo(r, k - 1);
      assert r.places[..k][..k - 1] == r.places[..k - 1];
      var before, oldest := LetGoEach(r, r.places[..k - 1]), r.places[k - 1];
      assert before.places[0] == oldest;
      OldestGone(before.places);
      LetGoKeeps(before, oldest);
      assert At(r, oldest).placed && HoldOk(r, oldest);
      assert oldest !in r.places[..k - 1];
      assert r.places[..k] == r.places[..k - 1] + [oldest];
    }
  }

  /** A newcomer takes a place, the oldest go if there is none left, and nobody who waits is touched. */
  lemma PlaceKeeps(r: Room, c: nat, cap: int)
    requires Ok(r) && Free(At(r, c))
    ensures var after, k := PlaceOf(r, c, cap), Excess(r, cap);
            && Ok(after)
            && k <= |r.places| && after.places == r.places[k..] + [c]
            && |after.places| <= Max(cap, 1)
            && after.waits == r.waits
            && (forall d: nat :: d != c && d !in r.places[..k] ==> At(after, d) == At(r, d))
  {
    var k := Excess(r, cap);
    assert c !in r.places;
    OldestLetGo(r, k);
    var room := LetGoEach(r, r.places[..k]);
    assert c !in r.places[..k];
    PlacedKeeps(room, c);
  }

  /**
   What a newcomer's place changes: below the cap nobody goes, at the cap the oldest
   does; the newcomer is the newest and has a deadline, and nothing else changes.
   */
  ghost predicate TookAPlace(was: Room, after: Room, c: nat, cap: int, cut: seq<nat>) {
    && cut == (if |was.places| < cap || was.places == [] then [] else [was.places[0]])
    && after.places == was.places[|cut|..] + [c] && after.waits == was.waits
    && At(after, c).placed && At(after, c).waitsOn == ""
    && At(after, c).deadline == Some(Timer(At(was, c).gen + 1, false))
    && (c, At(was, c).gen + 1) in after.armed && after.armed[(c, At(was, c).gen + 1)] == Place
    && (forall d: nat :: d in cut ==> Free(At(after, d)))
    && (forall d: nat :: d != c && d !in cut ==> At(after, d) == At(was, d))
  }

  lemma PlaceTakes(r: Room, c: nat, cap: int)
    requires Ok(r) && Free(At(r, c)) && |r.places| <= Max(cap, 1)
    ensures TookAPlace(r, PlaceOf(r, c, cap), c, cap, r.places[..Excess(r, cap)])
  {
    var k := Excess(r, cap);
    assert c !in r.places;
    OldestLetGo(r, k);
    assert c !in r.places[..k];
    assert k <= 1;
    assert k == 1 ==> r.places[..1] == [r.places[0]];
    hide Ok, LetGoEach;
  }

  /** A connection that starts to wait is the one holder of the wait; only the holder it took it from is let go of. */
  lemma AwaitKeeps(r: Room, c: nat, q: string)
    requires Ok(r) && q != ""
    ensures var after := AwaitOf(r, c, q);
            && Ok(after) && |after.places| <= |r.places|
            && (!Free(At(r, c)) ==> q in after.waits && after.waits[q] == c)
            && (forall d: nat :: d != c && !(q in r.waits && r.waits[q] == d) ==> At(after, d) == At(r, d))
  {
    if !Free(At(r, c)) {
      LetGoKeeps(r, c);
      var a := LetGoOf(r, c);
      if q in a.waits {
        assert q in r.waits && r.waits[q] == a.waits[q];
        assert At(a, a.waits[q]).waitsOn == q;
        LetGoKeeps(a, a.waits[q]);
        var b := LetGoOf(a, a.waits[q]);
        assert Free(At(b, c));
        WaitingKeeps(b, c, q);
      } else {
        WaitingKeeps(a, c, q);
      }
    }
  }

  /** What taking a wait changes: its holder is out of its place, whoever held the wait is held to nothing, nothing else changes. */
  ghost predicate TookTheWait(was: Room, after: Room, c: nat, q: string, left: Option<nat>) {
    && after.waits.Keys - {q} == was.waits.Keys - {q, At(was, c).waitsOn}
    && q in after.waits && after.waits[q] == c
    && At(after, c).waitsOn == q && !At(after, c).placed && At(after, c).deadline.Some? && !At(after, c).deadline.value.fired
    && (c, At(after, c).gen) in after.armed && after.armed[(c, At(after, c).gen)] == Wait(q)
    && (left.Some? ==> Free(At(after, left.value)))
    && (forall d: nat :: d != c && left != Some(d) ==> At(after, d) == At(was, d))
    && (forall i :: 0 <= i < |was.places| && was.places[i] == c ==> after.places == was.places[..i] + was.places[i + 1..])
    && (c !in was.places ==> after.places == was.places)
  }

  lemma AwaitTakes(r: Room, c: nat, q: string)
    requires Ok(r) && q != "" && !Free(At(r, c))
    ensures TookTheWait(r, AwaitOf(r, c, q), c, q, if q in r.waits && r.waits[q] != c then Some(r.waits[q]) else None)
  {
    LetGoKeeps(r, c);
    assert At(r, c).waitsOn == q <==> q in r.waits && r.waits[q] == c;
    AwaitPlaces(r, c, q);
    assert HoldOk(r, c);
    hide Ok, Without, HoldOk;
  }

  /** The places after a wait is taken: whoever waits has left its own, and the others stay in their order. */
  lemma AwaitPlaces(r: Room, c: nat, q: string)
    requires Ok(r) && q != "" && !Free(At(r, c))
    ensures var after := AwaitOf(r, c, q).places;
            && (forall i :: 0 <= i < |r.places| && r.places[i] == c ==> after == r.places[..i] + r.places[i + 1..])
            && (c !in r.places ==> after == r.places)
  {
    var a := LetGoOf(r, c);
    WaitingAreNotPlaced(r);
    WithoutSpec(r.places, c);
    if q in a.waits {
      assert At(r, a.waits[q]).waitsOn == q;
      WithoutSpec(a.places, a.waits[q]);
    }
    hide Ok, Without, At;
    forall i | 0 <= i < |r.places| && r.places[i] == c
      ensures a.places == r.places[..i] + r.places[i + 1..]
    {
      WithoutKeepsOrder(r.places, i);
    }
  }

  lemma WaitingAreNotPlaced(r: Room)
    requires Ok(r)
    ensures forall d: nat :: At(r, d).waitsOn != "" ==> d !in r.places
  {
    forall d: nat | At(r, d).waitsOn != ""
      ensures d !in r.places
    {
      assert HoldOk(r, d);
    }
  }

  /** What the end of a wait changes: its holder is free once allowed, and takes a place like a newcomer otherwise. */
  ghost predicate EndedTheWait(was: Room, after: Room, q: string, allowed: bool, cap: int, cut: seq<nat>) {
    && after.waits == was.waits - {q}
    && if q !in was.waits then cut == [] && after == was
       else
         var c := was.waits[q];
         if allowed then
           && cut == [] && after.places == was.places && Free(At(after, c))
           && (forall d: nat :: d != c ==> At(after, d) == At(was, d))
         else
           && cut == (if |was.places| < cap || was.places == [] then [] else [was.places[0]])
           && after.places == was.places[|cut|..] + [c] && At(after, c).placed && At(after, c).waitsOn == ""
           && (forall d: nat :: d in cut ==> Free(At(after, d)))
           && (forall d: nat :: d != c && d !in cut ==> At(after, d) == At(was, d))
  }

  lemma EndWaitEnds(r: Room, q: string, allowed: bool, cap: int)
    requires Ok(r) && |r.places| <= Max(cap, 1)
    ensures var free := if q in r.waits then LetGoOf(r, r.waits[q]) else r;
            var cut := if q in r.waits && !allowed then free.places[..Excess(free, cap)] else [];
            EndedTheWait(r, EndWaitOf(r, q, allowed, cap), q, allowed, cap, cut)
  {
    if q in r.waits {
      var c := r.waits[q];
      WaitingAreNotPlaced(r);
      assert At(r, c).waitsOn == q;
      LetGoKeeps(r, c);
      WithoutSpec(r.places, c);
      if !allowed {
        PlaceTakes(LetGoOf(r, c), c, cap);
      }
    }
    hide Ok, PlaceOf, Excess;
  }

  /** The end of a wait leaves its holder paired, or the newest of the strangers again. */
  lemma EndWaitKeeps(r: Room, q: string, allowed: bool, cap: int)
    requires Ok(r) && |r.places| <= Max(cap, 1)
    ensures var after := EndWaitOf(r, q, allowed, cap);
            && Ok(after) && |after.places| <= Max(cap, 1)
            && after.waits == r.waits - {q}
            && (q in r.waits && allowed ==> Free(At(after, r.waits[q])))
            && (q in r.waits && !allowed ==> At(after, r.waits[q]).placed && after.places[|after.places| - 1] == r.waits[q])
  {
    if q in r.waits {
      var c := r.waits[q];
      assert At(r, c).waitsOn == q;
      LetGoKeeps(r, c);
      if !allowed {
        PlaceKeeps(LetGoOf(r, c), c, cap);
      }
    }
  }

  datatype Op =
    | NewHold(c: nat)
    | Await(c: nat, q: string)
    | EndWait(q: string, allowed: bool)
    | LetGo(c: nat)
    | Fire(c: nat)
    | OutOfTime(c: nat, gen: nat)
    | Drop(cs: seq<nat>)

  class Registry {
    const cap: int
    var places: seq<nat>
    var waits: map<string, nat>
    var held: map<nat, Hold>
    var pending: set<(nat, nat)>
    ghost var armed: map<(nat, nat), Kind>

    constructor (maxUnpaired: int)
      ensures Valid() && cap == maxUnpaired && State() == Room([], map[], map[], {}, map[])
    {
      cap := maxUnpaired;
      places, waits, held, pending, armed := [], map[], map[], {}, map[];
    }

    ghost function State(): Room
      reads this
    {
      Room(places, waits, held, pending, armed)
    }

    ghost predicate Valid()
      reads this
    {
      Ok(State()) && |places| <= Max(cap, 1)
    }

    function HoldOf(c: nat): (h: Hold)
      reads this
      ensures h == At(State(), c)
    {
      if c in held then held[c] else Hold(false, "", None, 0)
    }

    method LetGoLocked(c: nat)
      requires PlacesOk(State())
      modifies this`places, this`waits, this`held
      ensures State() == LetGoOf(old(State()), c)
    {
      WithoutSpec(places, c);
      var h := HoldOf(c);
      if h.placed {
        places := Without(places, c);
      }
      if h.waitsOn != "" {
        waits := waits - {h.waitsOn};
      }
      held := held[c := Hold(false, "", None, h.gen + 1)];
    }

    /** A deadline for what `c` is held to now, numbered anew. */
    method ArmLocked(c: nat)
      modifies this`held, this`armed
      ensures var h := old(HoldOf(c));
              && held == old(held)[c := h.(deadline := Some(Timer(h.gen + 1, false)), gen := h.gen + 1)]
              && armed == old(armed)[(c, h.gen + 1) := KindOf(h)]
    {
      var h := HoldOf(c);
      armed := armed[(c, h.gen + 1) := KindOf(h)];
      held := held[c := h.(deadline := Some(Timer(h.gen + 1, false)), gen := h.gen + 1)];
    }

    method TakePlace(c: nat)
      requires Free(HoldOf(c))
      modifies this`places, this`held, this`armed
      ensures State() == PlacedLast(old(State()), c)
    {
      places := places + [c];
      held := held[c := HoldOf(c).(placed := true)];
      ArmLocked(c);
    }

    method TakeWait(c: nat, q: string)
      requires Free(HoldOf(c)) && q != ""
      modifies this`waits, this`held, this`armed
      ensures State() == WaitingOn(old(State()), c, q)
    {
      waits := waits[q := c];
      held := held[c := HoldOf(c).(waitsOn := q)];
      ArmLocked(c);
    }

    /** Takes the oldest out while one more would be too many. */
    method MakeRoom() returns (cut: seq<nat>)
      requires Ok(State())
      modifies this`places, this`waits, this`held
      ensures cut == old(places)[..Excess(old(State()), cap)]
      ensures State() == LetGoEach(old(State()), cut)
    {
      ghost var start := State();
      cut := [];
      hide NoDup, WaitsOk, NumbersOk, HoldOk, PlacesOk, At, LetGoOf, Without;
      assert start.places[0..] == start.places;
      assert PlacesOk(start);
      while |places| > 0 && |places| >= cap
        invariant |cut| <= Excess(start, cap) && cut == start.places[..|cut|]
        invariant State() == LetGoEach(start, cut)
        invariant places == start.places[|cut|..]
        invariant PlacesOk(State())
        decreases |places|
      {
        OldestLetGo(start, |cut| + 1);
        assert start.places[..|cut| + 1] == cut + [places[0]];
        assert (cut + [places[0]])[..|cut|] == cut;
        var oldest := places[0];
        LetGoLocked(oldest);
        cut := cut + [oldest];
      }
    }

    /** Makes `c` the newest place and takes the oldest out while there are too many. */
    method PlaceUnpairedLocked(c: nat) returns (cut: seq<nat>)
      requires Ok(State()) && Free(HoldOf(c))
      modifies this
      ensures State() == PlaceOf(old(State()), c, cap)
      ensures cut == old(places)[..Excess(old(State()), cap)]
      ensures Valid()
    {
      ghost var start := State();
      PlaceKeeps(start, c, cap);
      OldestLetGo(start, Excess(start, cap));
      assert c !in start.places;
      hide Ok, LetGoEach, LetGoOf, Excess;
      cut := MakeRoom();
      TakePlace(c);
    }

    /** A connection that proved a key nobody paired takes a place. */
    method HoldUnpaired(c: nat) returns (cut: seq<nat>)
      requires Valid() && Free(HoldOf(c))
      modifies this
      ensures Valid() && State() == PlaceOf(old(State()), c, cap)
      ensures TookAPlace(old(State()), State(), c, cap, cut)
      ensures forall d: nat :: old(HoldOf(d)).waitsOn != "" ==> d !in cut && HoldOf(d) == old(HoldOf(d))
    {
      ghost var start := State();
      PlaceTakes(start, c, cap);
      WaitingAreNotPlaced(start);
      hide Ok, PlaceOf, Excess;
      cut := PlaceUnpairedLocked(c);
    }

    /** The part of a wait under the lock: out of its place, the wait taken, whoever held it to be closed. */
    method AwaitLocked(c: nat, q: string) returns (left: Option<nat>)
      requires Valid() && q != ""
      modifies this
      ensures Valid() && State() == AwaitOf(old(State()), c, q)
      ensures left == if !Free(old(HoldOf(c))) && q in old(waits) && old(waits)[q] != c then Some(old(waits)[q]) else None
      ensures !Free(old(HoldOf(c))) ==> TookTheWait(old(State()), State(), c, q, left)
    {
      ghost var start := State();
      AwaitKeeps(start, c, q);
      if Free(HoldOf(c)) {
        return None;
      }
      AwaitTakes(start, c, q);
      assert At(start, c).waitsOn == q <==> q in start.waits && start.waits[q] == c;
      LetGoKeeps(start, c);
      assert PlacesOk(start) && PlacesOk(LetGoOf(start, c));
      hide Ok, PlacesOk, WaitsOk, NumbersOk, HoldOk, TookTheWait;
      LetGoLocked(c);
      left := None;
      if q in waits {
        left := Some(waits[q]);
        LetGoLocked(waits[q]);
      }
      TakeWait(c, q);
    }

    /** The wait on a closed request ends: paired when it was allowed, a stranger again otherwise. */
    method EndWaitLocked(q: string, allowed: bool) returns (cut: seq<nat>)
      requires Valid()
      modifies this
      ensures Valid() && State() == EndWaitOf(old(State()), q, allowed, cap)
      ensures EndedTheWait(old(State()), State(), q, allowed, cap, cut)
    {
      cut := [];
      EndWaitKeeps(State(), q, allowed, cap);
      EndWaitEnds(State(), q, allowed, cap);
      hide EndedTheWait;
      if q in waits {
        var holder := waits[q];
        LetGoKeeps(State(), holder);
        LetGoLocked(holder);
        if !allowed {
          cut := PlaceUnpairedLocked(holder);
        }
      }
    }

    /** Lets a connection go: it paired, greeted as a paired device, or ended. */
    method LetGoOne(c: nat)
      requires Valid()
      modifies this
      ensures Valid() && State() == LetGoOf(old(State()), c) && Free(HoldOf(c))
    {
      LetGoKeeps(State(), c);
      assert PlacesOk(State());
      hide Ok;
      LetGoLocked(c);
    }

    /** A running deadline goes off: its callback starts, and stopping it comes too late from here on. */
    method FireTimer(c: nat)
      requires Valid() && HoldOf(c).deadline.Some? && !HoldOf(c).deadline.value.fired
      modifies this`held, this`pending
      ensures Valid()
      ensures pending == old(pending) + {(c, HoldOf(c).gen)}
      ensures HoldOf(c) == old(HoldOf(c)).(deadline := Some(Timer(old(HoldOf(c)).gen, true)))
      ensures forall d: nat :: d != c ==> HoldOf(d) == old(HoldOf(d))
    {
      ghost var start := State();
      assert HoldOk(start, c);
      var h := HoldOf(c);
      held := held[c := h.(deadline := Some(Timer(h.gen, true)))];
      pending := pending + {(c, h.gen)};
      forall d: nat
        ensures HoldOk(State(), d)
      {
        assert HoldOk(start, d);
      }
    }

    /**
     A deadline's callback has the lock: it closes the connection exactly when the
     hold it was armed for is the one the connection is in, and does nothing otherwise.
     */
    method OutOfTimeOf(c: nat, gen: nat) returns (due: bool)
      requires Valid() && (c, gen) in pending
      modifies this
      ensures Valid() && pending == old(pending) - {(c, gen)}
      ensures due <==> !Free(old(HoldOf(c))) && old(HoldOf(c)).deadline == Some(Timer(gen, true))
      ensures due ==> (c, gen) in old(armed) && old(armed)[(c, gen)] == KindOf(old(HoldOf(c))) && Free(HoldOf(c))
      ensures due ==> State() == LetGoOf(old(State()), c).(pending := pending)
      ensures !due ==> State() == old(State()).(pending := pending)
    {
      ghost var start := State();
      assert HoldOk(start, c);
      due := HoldOf(c).gen == gen;
      if due {
        LetGoKeeps(start, c);
        LetGoLocked(c);
      }
      ghost var mid := State();
      pending := pending - {(c, gen)};
      forall d: nat
        ensures HoldOk(State(), d)
      {
        assert HoldOk(mid, d);
      }
    }

    /** A revoked device's connections hold no place and wait on nothing. */
    method DropDevice(cs: seq<nat>)
      requires Valid()
      modifies this
      ensures Valid() && State() == LetGoEach(old(State()), cs)
      ensures forall i :: 0 <= i < |cs| ==> Free(HoldOf(cs[i]))
    {
      hide Ok;
      ghost var start := State();
      for i := 0 to |cs|
        invariant Valid() && State() == LetGoEach(start, cs[..i])
        invariant forall j :: 0 <= j < i ==> Free(HoldOf(cs[j]))
      {
        assert cs[..i + 1][..i] == cs[..i];
        LetGoOne(cs[i]);
      }
      assert cs[..|cs|] == cs;
    }

    /** Any run of these keeps the registry in order. */
    method AnyRun(ops: seq<Op>)
      requires Valid() && forall i :: 0 <= i < |ops| && ops[i].Await? ==> ops[i].q != ""
      modifies this
      ensures Valid()
    {
      for i := 0 to |ops|
        invariant Valid()
      {
        match ops[i] {
          case NewHold(c) => if Free(HoldOf(c)) { var _ := HoldUnpaired(c); }
          case Await(c, q) => var _ := AwaitLocked(c, q);
          case EndWait(q, allowed) => var _ := EndWaitLocked(q, allowed);
          case LetGo(c) => LetGoOne(c);
          case Fire(c) => if HoldOf(c).deadline.Some? && !HoldOf(c).deadline.value.fired { FireTimer(c); }
          case OutOfTime(c, gen) => if (c, gen) in pending { var _ := OutOfTimeOf(c, gen); }
          case Drop(cs) => DropDevice(cs);
        }
      }
    }
  }
}
