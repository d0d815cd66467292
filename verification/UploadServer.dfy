/**
 The server's uploads whole: tokens, writers and requests in memory, the file
 rows, and the disk of one file, any one - what the other files' disks answer is
 left open. Requests interleave in any way, and the power may go at any file
 operation (client_backend/internal/server/files.go, tokens.go, writers.go over
 client_backend/internal/blob/blob.go).
 */
module UploadServer {
  import opened Common
  import opened BlobFormat
  import opened BlobDisk
  import opened BlobRuns
  import opened UploadDesk
  import A = UploadAccess

  /** A file's disk as the rest of the server can tell: whether an upload has its part open, and what it holds. */
  datatype View = View(open: bool, state: DiskState)

  /** The part opened for writing, with the disk as it was then. */
  datatype Opening = Opening(offset: nat, size: nat, state: DiskState, content: seq<byte>)

  /** It was opened on a file not finished, at an offset whose bytes were sealed on stable storage. */
  ghost predicate Warranted(cipher: ChunkCipher, o: Opening) {
    && o.state.file.None?
    && Boundary(o.offset, o.size)
    && (o.offset > 0 ==> Stable(cipher, o.size, o.state, o.content, o.offset))
  }

  // ---- what memory and the disk say of each other ----

  /** A PUT that writes has the part open on a file not finished; one that has it all finds it finished. */
  predicate PutLinked(p: A.Put, name: string, w: View) {
    p.file == name ==>
      && (p.stage == A.Writing ==> w.open && w.state.file.None?)
      && (p.stage == A.Complete ==> w.state.file.Some?)
  }

  /** The row says uploaded only of a finished file, and an open part has its PUT. */
  predicate RowLinked(s: A.State, name: string, w: View) {
    && (name in s.rows && s.rows[name].uploaded ==> w.state.file.Some?)
    && (w.open ==> name in s.active && s.active[name] in s.puts && s.puts[s.active[name]].stage == A.Writing)
  }

  ghost predicate Linked(s: A.State, name: string, w: View) {
    RowLinked(s, name, w) && forall r :: r in s.puts ==> PutLinked(s.puts[r], name, w)
  }

  /** Whether the finished file is there with the length its size gives it. */
  predicate IsFinished(d: DiskState, size: nat) {
    d.file.Some? && |d.file.value.bytes| == CipherLen(size)
  }

  lemma FinishedHasItsLength(a: ChunkCipher, size: nat, d: DiskState)
    requires Tagged(a) && d.file.Some? && Finished(a, size, d.file.value)
    ensures IsFinished(d, size)
  {
    var p :| |p| == size && d.file.value == OnStable(Encode(a, p, size));
    EncodeLength(a, p, size);
  }

  /** What is finished stays as it is. */
  predicate Onward(w: DiskState, w': DiskState) {
    w.file.Some? ==> w'.file == w.file
  }

  /** The step is another file's, or leaves every disk alone. */
  predicate Elsewhere(s: A.State, name: string, a: A.Action) {
    match a
    case Declare(file, _, _, _) => file != name
    case Ask(_, file, _) => file != name
    case Look(r, _) => r in s.puts ==> s.puts[r].file != name
    case LetGo(r) => r in s.puts ==> s.puts[r].file != name
    case Whole(r) => r in s.puts ==> s.puts[r].file != name
    case Restart => false
    case _ => true
  }

  lemma PutsStayLinked(s: A.State, a: A.Action, name: string, w: View)
    requires A.WritersOk(s) && Linked(s, name, w) && Elsewhere(s, name, a)
    ensures forall r :: r in A.Next(s, a).puts ==> PutLinked(A.Next(s, a).puts[r], name, w)
  {
    hide A.IssueOf, A.RedeemOf;
    var t := A.Next(s, a);
    forall r | r in t.puts
      ensures PutLinked(t.puts[r], name, w)
    {
      if r in s.puts {
        assert PutLinked(s.puts[r], name, w);
      }
    }
  }

  lemma RowStaysLinked(s: A.State, a: A.Action, name: string, w: View)
    requires A.WritersOk(s) && Linked(s, name, w) && Elsewhere(s, name, a)
    ensures RowLinked(A.Next(s, a), name, w)
  {
    hide A.IssueOf, A.RedeemOf;
    if a.Commit? && a.r in s.puts {
      assert PutLinked(s.puts[a.r], name, w);
    }
  }

  /** The file's own writer moves on, with what it did to the disk. */
  lemma RestagedLinked(s: A.State, r: nat, stage: A.Stage, name: string, w: View, w': View)
    requires A.WritersOk(s) && Linked(s, name, w) && r in s.puts && s.puts[r].file == name
    requires s.puts[r].stage != A.Waiting && stage != A.Waiting
    requires Onward(w.state, w'.state)
    requires w'.open <==> stage == A.Writing
    requires stage == A.Writing ==> w'.state.file.None?
    requires stage == A.Complete ==> w'.state.file.Some?
    ensures Linked(A.WithPut(s, r, stage), name, w')
  {
    var t := A.WithPut(s, r, stage);
    forall q | q in t.puts
      ensures PutLinked(t.puts[q], name, w')
    {
      assert PutLinked(s.puts[q], name, w);
    }
  }

  datatype Event =
    | Declare(size: nat, token: string, now: int)
    | ReadProgress(k: nat)
    | Other(a: A.Action)
    | OpenPart(r: nat)
    | Write(r: nat, work: Work)
    | PowerCut(r: nat, work: Work, moment: nat, outcome: DiskState)

  class Server {
    const name: string
    const cipher: ChunkCipher
    var tables: A.State
    var desk: Desk?
    var openings: seq<Opening>

    constructor (name: string, cipher: ChunkCipher)
      requires Tagged(cipher)
      ensures Valid() && this.name == name && this.cipher == cipher
      ensures tables == A.Start() && desk == null && openings == []
    {
      this.name, this.cipher := name, cipher;
      tables, desk, openings := A.Start(), null, [];
    }

    ghost function Repr(): set<object>
      reads this, desk
    {
      if desk == null then {} else {desk, desk.disk} + (if desk.upload == null then {} else {desk.upload})
    }

    ghost function Disk(): DiskState
      reads this, desk, if desk != null then {desk.disk} else {}
    {
      if desk == null then Empty else desk.disk.state
    }

    ghost function Now(): View
      reads this, desk, if desk != null then {desk.disk} else {}
    {
      View(desk != null && desk.upload != null, Disk())
    }

    ghost predicate Valid()
      reads this, desk, if desk != null then {desk.disk, desk.upload} else {}
    {
      && Tagged(cipher)
      && A.Inv(tables)
      && (desk != null <==> name in tables.rows)
      && (desk != null ==> desk.Valid() && desk.disk.size == tables.rows[name].size && desk.disk.cipher == cipher)
      && Linked(tables, name, Now())
      && (forall i :: 0 <= i < |openings| ==> Warranted(cipher, openings[i]))
    }

    /** A row that says uploaded has a file wholly on stable storage, the sealing of as many bytes as it declares. */
    lemma UploadedIsFinished()
      requires Valid() && name in tables.rows && tables.rows[name].uploaded
      ensures Disk().file.Some? && Finished(cipher, tables.rows[name].size, Disk().file.value)
    {
      assert desk.disk.GoodNow();
    }

    /** A file under the finished name is the finished file: its length cannot be another. */
    lemma WholeFile()
      requires Valid() && desk != null
      ensures IsFinished(Disk(), desk.disk.size) <==> Disk().file.Some?
    {
      assert desk.disk.GoodNow();
      if Disk().file.Some? {
        FinishedHasItsLength(cipher, desk.disk.size, Disk());
      }
    }

    /** A step of another file, or one that touches no disk. */
    method Elsewise(a: A.Action)
      requires Valid() && Elsewhere(tables, name, a)
      modifies this`tables
      ensures Valid() && tables == A.Next(old(tables), a)
    {
      hide Desk.Valid, Tagged, Warranted;
      A.NextKeeps(tables, a);
      PutsStayLinked(tables, a, name, Now());
      RowStaysLinked(tables, a, name, Now());
      RowsElsewhere(tables, name, a);
      tables := A.Next(tables, a);
    }

    /** Declares the file: a row, an empty disk and a first token. */
    method DeclareIt(size: nat, token: string, now: int)
      requires Valid()
      modifies this
      ensures Valid() && openings == old(openings)
      ensures old(desk) != null ==> desk == old(desk) && tables == old(tables)
      ensures old(desk) == null ==> Disk() == Empty
      ensures old(desk) == null && size > 0 && token !in old(tables).minted ==>
        && desk != null && desk.disk.size == size && desk.disk.content == [] && desk.disk.faults == 0
        && tables == A.Next(old(tables), A.Action.Declare(name, size, token, now))
      ensures desk != old(desk) ==> fresh(desk) && fresh(desk.disk) && desk.upload == null
    {
      hide Tagged, Warranted;
      if name in tables.rows || size == 0 || token in tables.minted {
        return;
      }
      var a := A.Action.Declare(name, size, token, now);
      A.NextKeeps(tables, a);
      DeclareLinked(tables, a, name);
      tables := A.Next(tables, a);
      desk := new Desk(cipher, size);
    }

    /** What a continuation is told is there: everything once the file is finished, the durable bytes before. */
    method ReadProgressOf(k: nat)
      requires Valid()
      modifies this`tables
      ensures Valid()
      ensures desk != null && k !in old(tables).asking ==>
        k in tables.asking && tables.asking[k] == (name, if old(tables).rows[name].uploaded || Disk().file.Some?
                                                         then desk.disk.size else Min(Received(Disk()), desk.disk.size))
    {
      hide Desk.Valid, Tagged, Warranted;
      if desk == null {
        return;
      }
      WholeFile();
      var whole := tables.rows[name].uploaded || IsFinished(desk.disk.state, desk.disk.size);
      var received := if whole then desk.disk.size else Min(Received(desk.disk.state), desk.disk.size);
      var a := A.Ask(k, name, received);
      A.NextKeeps(tables, a);
      AskLinked(tables, a, name, Now());
      tables := A.Next(tables, a);
    }

    /**
     The file's one writer looks again and opens the part: a finished file is left
     alone, and so is one with too few durable bytes.
     */
    method OpenPartOf(r: nat)
      requires Valid() && A.Is(tables, r, A.Holding) && tables.puts[r].file == name
      modifies this, Repr()
      ensures Valid() && desk == old(desk) && fresh(Repr() - old(Repr()))
      ensures Disk().file == old(Disk()).file
      ensures openings == old(openings) || (old(Disk()).file.None?
              && openings == old(openings) + [Opening(old(tables).puts[r].offset, desk.disk.size, old(desk.disk.state), old(desk.disk.content))])
      ensures A.Is(tables, r, A.Writing) ==> openings != old(openings)
      ensures var p := old(tables).puts[r];
        tables == A.Next(old(tables), A.Look(r,
          if old(tables).rows[name].uploaded || old(Disk()).file.Some? then A.IsWhole
          else if p.offset <= old(Received(Disk())) && Boundary(p.offset, desk.disk.size) && desk.disk.size >= 1
                  && desk.disk.faults == old(desk.disk.faults) then A.IsOpen
          else A.IsShort))
      ensures A.Is(tables, r, A.Writing) ==>
        && desk.upload != null && old(tables).puts[r].offset <= |old(desk.disk.content)|
        && desk.upload.Delivered() == old(desk.disk.content)[..old(tables).puts[r].offset]
      ensures desk.disk.faults >= old(desk.disk.faults)
    {
      hide Desk.Valid, Tagged, Stable, Boundary, A.Next, Received;
      var p, row := tables.puts[r], tables.rows[name];
      ghost var s, w := tables, Now();
      NotOpenWhileHolding(s, r, name, w);
      WholeFile();
      if row.uploaded || IsFinished(desk.disk.state, desk.disk.size) {
        LookLinked(s, r, A.IsWhole, name, w, w);
        Looked(r, A.IsWhole);
        return;
      }
      var opening := Opening(p.offset, desk.disk.size, desk.disk.state, desk.disk.content);
      var ok := desk.Do(p.offset, OpeningIt);
      if ok {
        openings := openings + [opening];
      }
      LookLinked(s, r, if ok then A.IsOpen else A.IsShort, name, w, Now());
      A.NextKeeps(tables, A.Look(r, if ok then A.IsOpen else A.IsShort));
      tables := A.Next(tables, A.Look(r, if ok then A.IsOpen else A.IsShort));
    }

    /** The look's outcome, on a disk nothing was done to. */
    method Looked(r: nat, found: A.Found)
      requires Valid() && A.Is(tables, r, A.Holding)
      requires Linked(A.Next(tables, A.Look(r, found)), name, Now())
      modifies this`tables
      ensures Valid() && tables == A.Next(old(tables), A.Look(r, found))
    {
      A.NextKeeps(tables, A.Look(r, found));
      tables := A.Next(tables, A.Look(r, found));
    }

    /** More bytes, a checkpoint, or one of the ways a PUT ends. */
    method WriteOf(r: nat, work: Work)
      requires Valid() && A.Is(tables, r, A.Writing) && tables.puts[r].file == name && !work.OpeningIt?
      modifies this, Repr()
      ensures Valid() && desk == old(desk) && fresh(Repr() - old(Repr())) && openings == old(openings)
      ensures Onward(old(Disk()), Disk()) && desk.disk.faults >= old(desk.disk.faults)
      ensures old(desk.upload) != null
      ensures work.Stopping? ==> tables == A.Next(old(tables), A.LetGo(r))
      ensures work.Sending? || work.Flushing? ==>
        tables == if desk.disk.faults == old(desk.disk.faults) then old(tables) else A.Next(old(tables), A.LetGo(r))
      ensures work.Sending? && desk.disk.faults == old(desk.disk.faults) && |old(desk.upload.Delivered())| + |work.bytes| <= desk.disk.size ==>
        desk.upload != null && desk.upload.Delivered() == old(desk.upload.Delivered()) + work.bytes
      ensures work.Finishing? ==>
        if |old(desk.upload.Delivered())| == desk.disk.size && desk.disk.faults == old(desk.disk.faults)
        then tables == A.Next(old(tables), A.Whole(r))
             && Disk().file == Some(OnStable(Encode(cipher, old(desk.upload.Delivered()), desk.disk.size)))
        else tables == A.Next(old(tables), A.LetGo(r))
    {
      hide Desk.Valid, Tagged, Stable, Boundary, Warranted, A.Next, Encode;
      ghost var s, w := tables, Now();
      assert PutLinked(s.puts[r], name, w);
      var ok := desk.Do(tables.puts[r].offset, work);
      WriterLinked(s, r, name, w, Now());
      if work.Finishing? && ok {
        A.NextKeeps(tables, A.Whole(r));
        tables := A.Next(tables, A.Whole(r));
      } else if desk.upload == null {
        A.NextKeeps(tables, A.LetGo(r));
        tables := A.Next(tables, A.LetGo(r));
      }
    }

    lemma HistoryEndsNow()
      requires Valid() && desk != null
      ensures |desk.disk.history| > 0 && desk.disk.history[|desk.disk.history| - 1].state == Disk()
    {
      HistoryEndsAt(desk);
    }

    /** What request `r` is doing to the file, if it is doing anything; a finished file nobody touches. */
    method Busy(r: nat, work: Work)
      requires Valid() && desk != null
      modifies Repr()
      ensures desk.Valid() && fresh(Repr() - old(Repr()))
      ensures old(Disk()).file.Some? ==> desk.disk.state == old(desk.disk.state) && desk.disk.history == old(desk.disk.history)
    {
      hide Tagged, Stable, Boundary, Warranted, Underway;
      WholeFile();
      if work.OpeningIt? {
        if A.Is(tables, r, A.Holding) && tables.puts[r].file == name
           && !tables.rows[name].uploaded && !IsFinished(desk.disk.state, desk.disk.size) {
          NotOpenWhileHolding(tables, r, name, Now());
          var _ := desk.Do(tables.puts[r].offset, work);
        }
      } else if A.Is(tables, r, A.Writing) && tables.puts[r].file == name {
        assert PutLinked(tables.puts[r], name, Now());
        var _ := desk.Do(tables.puts[r].offset, work);
      }
    }

    /**
     The power goes, perhaps in the middle of what request `r` does to the file, at
     any of its file operations. Tokens, writers and requests are gone; rows and disk
     are what they are.
     */
    method PowerCutAt(r: nat, work: Work, moment: nat, outcome: DiskState)
      requires Valid()
      modifies this, Repr()
      ensures Valid() && desk == old(desk) && fresh(Repr() - old(Repr())) && openings == old(openings)
      ensures tables == A.Next(old(tables), A.Restart)
      ensures Onward(old(Disk()), Disk())
    {
      hide Desk.Valid, Tagged, Stable, Boundary, Warranted, A.Next, A.Inv, Linked, CrashOutcome;
      ghost var s, w := tables, Now();
      A.NextKeeps(tables, A.Restart);
      if desk != null {
        HistoryEndsNow();
        var before := |desk.disk.history| - 1;
        Busy(r, work);
        HistoryEndsAt(desk);
        var at := if before <= moment < |desk.disk.history| then moment else |desk.disk.history| - 1;
        desk.PowerOff(at, outcome);
      }
      RestartLinked(s, name, w, Disk());
      tables := A.Next(tables, A.Restart);
    }

    /** One event; an event that does not apply changes nothing. */
    method Step(e: Event)
      requires Valid()
      modifies this, Repr()
      ensures Valid() && fresh(Repr() - old(Repr()))
      ensures Onward(old(Disk()), Disk()) && old(openings) <= openings
      ensures old(Disk()).file.Some? ==> openings == old(openings)
    {
      hide Valid, Warranted, A.Next;
      match e {
        case Declare(size, token, now) => DeclareIt(size, token, now);
        case ReadProgress(k) => ReadProgressOf(k);
        case Other(a) => if Elsewhere(tables, name, a) { Elsewise(a); }
        case OpenPart(r) => if A.Is(tables, r, A.Holding) && tables.puts[r].file == name { OpenPartOf(r); }
        case Write(r, work) =>
          if A.Is(tables, r, A.Writing) && tables.puts[r].file == name && !work.OpeningIt? { WriteOf(r, work); }
        case PowerCut(r, work, moment, outcome) => PowerCutAt(r, work, moment, outcome);
      }
    }

    /**
     A file declared, its token presented, and its bytes sent whole, while nothing else
     happens: on a disk that does not fail the file is finished, its row says so, and
     the request has let go.
     */
    method PutWhole(p: seq<byte>, token: string, now: int, r: nat)
      requires Valid() && desk == null && |p| >= 1 && token !in tables.minted
      requires r !in tables.puts && name !in tables.active
      modifies this
      ensures Valid() && desk != null && fresh(desk.disk)
      ensures desk.disk.faults == 0 ==>
        && Disk().file == Some(OnStable(Encode(cipher, p, |p|)))
        && name in tables.rows && tables.rows[name].uploaded && tables.rows[name].size == |p|
        && name !in tables.active && r !in tables.puts && token !in tables.tokens
    {
      HoldIt(|p|, token, now, r);
      FromTheHold(tables, name, r);
      NothingYet(|p|);
      hide A.Next, A.Is, Valid, Boundary, Received, Encode, Warranted;
      OpenPartOf(r);
      if A.Is(tables, r, A.Writing) {
        SendWhole(p, r);
      }
    }

    /** Declared, its token presented, the file taken: the request holds it from its start. */
    method HoldIt(size: nat, token: string, now: int, r: nat)
      requires Valid() && desk == null && size > 0 && token !in tables.minted
      requires r !in tables.puts && name !in tables.active
      modifies this
      ensures Valid() && desk != null && fresh(desk) && fresh(desk.disk) && desk.upload == null && openings == old(openings)
      ensures Disk() == Empty && desk.disk.content == [] && desk.disk.faults == 0 && desk.disk.size == size
      ensures A.Is(tables, r, A.Holding) && tables.puts[r] == A.Put(name, 0, A.Holding)
      ensures name in tables.rows && tables.rows[name] == A.Row(size, false)
      ensures name in tables.active && tables.active[name] == r && token !in tables.tokens
    {
      ToTheHold(tables, name, size, token, now, r);
      hide A.Next, A.Is, Linked, Warranted, Encode, Received, Boundary, Desk.Valid, Tagged;
      DeclareIt(size, token, now);
      Elsewise(A.Present(r, token, now));
      Elsewise(A.Take(r));
    }

    /** The bytes sent whole by a request that writes, and everything after. */
    method SendWhole(p: seq<byte>, r: nat)
      requires Valid() && A.Is(tables, r, A.Writing) && tables.puts[r].file == name
      requires desk.upload != null && desk.upload.Delivered() == [] && desk.disk.size == |p|
      modifies this, Repr()
      ensures Valid() && desk == old(desk) && fresh(Repr() - old(Repr()))
      ensures desk.disk.faults >= old(desk.disk.faults)
      ensures desk.disk.faults == old(desk.disk.faults) ==>
        && Disk().file == Some(OnStable(Encode(cipher, p, |p|)))
        && tables == A.Next(A.Next(A.Next(old(tables), A.Whole(r)), A.Commit(r)), A.Release(r))
    {
      AfterWriting(tables, r);
      hide Valid, A.Next, A.Is, Linked, Encode, Elsewhere, Warranted;
      assert [] + p == p;
      WriteOf(r, Sending(p));
      if A.Is(tables, r, A.Writing) {
        FinishWhole(p, r);
      }
    }

    /** Every byte is in: the part becomes the file, and the row is told. */
    method FinishWhole(p: seq<byte>, r: nat)
      requires Valid() && A.Is(tables, r, A.Writing) && tables.puts[r].file == name
      requires desk.upload != null && desk.upload.Delivered() == p && desk.disk.size == |p|
      modifies this, Repr()
      ensures Valid() && desk == old(desk) && fresh(Repr() - old(Repr()))
      ensures desk.disk.faults >= old(desk.disk.faults)
      ensures desk.disk.faults == old(desk.disk.faults) ==>
        && Disk().file == Some(OnStable(Encode(cipher, p, |p|)))
        && tables == A.Next(A.Next(A.Next(old(tables), A.Whole(r)), A.Commit(r)), A.Release(r))
    {
      AfterWriting(tables, r);
      hide Valid, A.Next, A.Is, Linked, Encode, Warranted, Elsewhere;
      WriteOf(r, Finishing);
      if A.Is(tables, r, A.Complete) {
        TellTheRow(r);
      }
    }

    method TellTheRow(r: nat)
      requires Valid()
      modifies this`tables
      ensures Valid() && tables == A.Next(A.Next(old(tables), A.Commit(r)), A.Release(r))
    {
      hide Valid, A.Next;
      Elsewise(A.Commit(r));
      Elsewise(A.Release(r));
    }

    /**
     Any run of requests, of this file and of others, and of power cuts: every time
     the part was opened its file was not finished and the bytes before the offset
     were sealed on stable storage; a finished file stays as it is and is not opened
     again; and a row says uploaded only of one.
     */
    method AnyRun(events: seq<Event>)
      requires Valid()
      modifies this, Repr()
      ensures Valid() && fresh(Repr() - old(Repr()))
      ensures Onward(old(Disk()), Disk()) && old(openings) <= openings
      ensures old(Disk()).file.Some? ==> openings == old(openings)
      ensures forall i :: 0 <= i < |openings| ==> Warranted(cipher, openings[i])
      ensures Disk().file.Some? ==> desk != null && Finished(cipher, desk.disk.size, Disk().file.value)
      ensures name in tables.rows && tables.rows[name].uploaded ==> Disk().file.Some?
    {
      hide Valid, Warranted;
      for i := 0 to |events|
        invariant Valid() && fresh(Repr() - old(Repr()))
        invariant Onward(old(Disk()), Disk()) && old(openings) <= openings
        invariant old(Disk()).file.Some? ==> openings == old(openings)
      {
        Step(events[i]);
      }
      FinishedNow();
    }

    lemma FinishedNow()
      requires Valid()
      ensures forall i :: 0 <= i < |openings| ==> Warranted(cipher, openings[i])
      ensures Disk().file.Some? ==> desk != null && Finished(cipher, desk.disk.size, Disk().file.value)
      ensures name in tables.rows && tables.rows[name].uploaded ==> Disk().file.Some?
    {
      if desk != null {
        assert desk.disk.GoodNow();
      }
    }
  }

  lemma RowsElsewhere(s: A.State, name: string, a: A.Action)
    requires Elsewhere(s, name, a)
    ensures name in A.Next(s, a).rows <==> name in s.rows
    ensures name in s.rows ==> A.Next(s, a).rows[name].size == s.rows[name].size
  {
    hide A.IssueOf, A.RedeemOf;
  }

  lemma DeclareLinked(s: A.State, a: A.Action, name: string)
    requires A.WritersOk(s) && Linked(s, name, View(false, Empty)) && a.Declare? && a.file == name && name !in s.rows
    requires a.size != 0 && a.token !in s.minted
    ensures Linked(A.Next(s, a), name, View(false, Empty))
    ensures name in A.Next(s, a).rows && A.Next(s, a).rows[name].size == a.size
  {
    hide A.IssueOf;
    forall r | r in A.Next(s, a).puts
      ensures PutLinked(A.Next(s, a).puts[r], name, View(false, Empty))
    {
      assert PutLinked(s.puts[r], name, View(false, Empty));
    }
  }

  lemma AskLinked(s: A.State, a: A.Action, name: string, w: View)
    requires Linked(s, name, w) && a.Ask?
    ensures Linked(A.Next(s, a), name, w) && A.Next(s, a).rows == s.rows
  {
  }

  /** After a restart nobody writes, and what the row promises is still there. */
  lemma RestartLinked(s: A.State, name: string, w: View, d: DiskState)
    requires Linked(s, name, w) && Onward(w.state, d)
    ensures Linked(A.Next(s, A.Restart), name, View(false, d)) && A.Next(s, A.Restart).rows == s.rows
  {
  }

  lemma HistoryEndsAt(d: Desk)
    requires d.Valid()
    ensures |d.disk.history| > 0 && d.disk.history[|d.disk.history| - 1].state == d.disk.state
  {
  }

  /** The holder's look, with what opening did to the disk. */
  lemma LookLinked(s: A.State, r: nat, found: A.Found, name: string, w: View, w': View)
    requires A.WritersOk(s) && Linked(s, name, w) && A.Is(s, r, A.Holding) && s.puts[r].file == name && name in s.rows
    requires Onward(w.state, w'.state) && (w'.open <==> found.IsOpen?)
    requires found.IsOpen? ==> w'.state.file.None?
    requires found.IsWhole? ==> w'.state.file.Some?
    ensures var t := A.Next(s, A.Look(r, found)); Linked(t, name, w') && t.rows == s.rows
    ensures A.Is(A.Next(s, A.Look(r, found)), r, A.Writing) <==> found.IsOpen?
  {
    hide Linked;
    var p := s.puts[r];
    RestagedLinked(s, r, match found case IsWhole => A.AfterFinished(p, s.rows[name]) case IsOpen => A.Writing case IsShort => A.Leaving,
                   name, w, w');
  }

  /** The writer writes on, ends with the whole file, or lets go, with what it did to the disk. */
  lemma WriterLinked(s: A.State, r: nat, name: string, w: View, w': View)
    requires A.WritersOk(s) && Linked(s, name, w) && A.Is(s, r, A.Writing) && s.puts[r].file == name
    requires Onward(w.state, w'.state)
    ensures w'.open && w'.state.file.None? ==> Linked(s, name, w')
    ensures !w'.open ==> Linked(A.Next(s, A.LetGo(r)), name, w') && A.Next(s, A.LetGo(r)).rows == s.rows
    ensures !w'.open && w'.state.file.Some? ==> Linked(A.Next(s, A.Whole(r)), name, w') && A.Next(s, A.Whole(r)).rows == s.rows
  {
    hide Linked;
    if !w'.open {
      RestagedLinked(s, r, A.Leaving, name, w, w');
      if w'.state.file.Some? {
        RestagedLinked(s, r, A.Complete, name, w, w');
      }
    } else if w'.state.file.None? {
      RestagedLinked(s, r, A.Writing, name, w, w');
      assert A.WithPut(s, r, A.Writing) == s;
    }
  }

  lemma NotOpenWhileHolding(s: A.State, r: nat, name: string, w: View)
    requires A.WritersOk(s) && Linked(s, name, w) && A.Is(s, r, A.Holding) && s.puts[r].file == name
    ensures !w.open
  {
  }

  /** A file declared, its token presented and the file taken: its request holds it, at offset zero. */
  lemma ToTheHold(s: A.State, name: string, size: nat, token: string, now: int, r: nat)
    requires name !in s.rows && size > 0 && token !in s.minted && r !in s.puts && name !in s.active
    ensures var t := Held(s, name, size, token, now, r);
            && A.Is(t, r, A.Holding) && t.puts[r] == A.Put(name, 0, A.Holding) && t.rows[name] == A.Row(size, false)
            && t.active == s.active[name := r] && token !in t.tokens
  {
    var d := A.Next(s, A.Action.Declare(name, size, token, now));
    assert d.tokens[token] == A.Entry(name, A.ForUpload, 0, now + 600);
    var h := A.Next(d, A.Present(r, token, now));
    assert h.puts == s.puts[r := A.Put(name, 0, A.Waiting)];
  }

  function Held(s: A.State, name: string, size: nat, token: string, now: int, r: nat): A.State {
    A.Next(A.Next(A.Next(s, A.Action.Declare(name, size, token, now)), A.Present(r, token, now)), A.Take(r))
  }

  /** What follows the look: a part that opens is written, and committed once it is whole. */
  lemma FromTheHold(t: A.State, name: string, r: nat)
    requires A.Is(t, r, A.Holding) && t.puts[r].file == name && name in t.active && t.active[name] == r
    ensures var u := A.Next(t, A.Look(r, A.IsOpen));
            && A.Is(u, r, A.Writing) && u.puts[r].file == name
            && var v := A.Next(A.Next(A.Next(u, A.Whole(r)), A.Commit(r)), A.Release(r));
               && name in v.rows && v.rows[name] == A.Row(t.rows[name].size, true)
               && name !in v.active && r !in v.puts && v.tokens == t.tokens
    ensures !A.Is(A.Next(t, A.Look(r, A.IsShort)), r, A.Writing)
  {
  }

  lemma AfterWriting(s: A.State, r: nat)
    requires A.Is(s, r, A.Writing)
    ensures A.Is(A.Next(s, A.Whole(r)), r, A.Complete)
    ensures !A.Is(A.Next(s, A.LetGo(r)), r, A.Complete) && !A.Is(A.Next(s, A.LetGo(r)), r, A.Writing)
  {
  }

  lemma NothingYet(size: nat)
    ensures Received(Empty) == 0 && Boundary(0, size) && Empty.file.None?
  {
  }
}
