/**
 File transfers against revocations (client_backend/internal/server/files.go
 admitTransfer, client_backend/internal/server/server.go trackTransfer and
 dropDevice): a transfer registers under its device's key and then looks the key
 up; a revocation deletes the row, then walks the registry, then cuts what it
 found. A key may pair again in between.
 */
module TransferProtocol {
  import opened Common

  /** `seen` is how many revocations of its key there had been when the transfer was let in. */
  datatype Stage = Registered | Admitted(seen: nat)

  datatype Transfer = Transfer(key: string, stage: Stage, cut: bool)

  /** A revocation that has deleted the row: its walk is to come, or it is cutting what the walk found. */
  datatype Task = Walk(key: string) | Cutting(key: string, left: set<nat>)

  datatype State = State(
    paired: set<string>,
    tracked: set<nat>,
    revocations: map<string, nat>,
    transfers: map<nat, Transfer>,
    tasks: map<nat, Task>)

  datatype Action =
    | Pair(key: string)
    | Revoke(task: nat, key: string)
    | WalkRegistry(task: nat)
    | CutOne(task: nat, t: nat)
    | EndTask(task: nat)
    | Track(t: nat, key: string)
    | LookUp(t: nat)
    | Untrack(t: nat)

  function Count(s: State, key: string): nat {
    if key in s.revocations then s.revocations[key] else 0
  }

  function Next(s: State, a: Action): State {
    match a
    case Pair(k) => s.(paired := s.paired + {k})
    case Revoke(id, k) =>
      if id in s.tasks then s
      else s.(paired := s.paired - {k},
              revocations := s.revocations[k := Count(s, k) + 1],
              tasks := s.tasks[id := Walk(k)])
    case WalkRegistry(id) =>
      if id in s.tasks && s.tasks[id].Walk?
      then s.(tasks := s.tasks[id := Cutting(s.tasks[id].key, set t | t in s.transfers && s.transfers[t].key == s.tasks[id].key)])
      else s
    case CutOne(id, t) =>
      if id in s.tasks && s.tasks[id].Cutting? && t in s.tasks[id].left
      then s.(tasks := s.tasks[id := Cutting(s.tasks[id].key, s.tasks[id].left - {t})],
              transfers := if t in s.transfers then s.transfers[t := s.transfers[t].(cut := true)] else s.transfers)
      else s
    case EndTask(id) =>
      if id in s.tasks && s.tasks[id].Cutting? && s.tasks[id].left == {} then s.(tasks := s.tasks - {id}) else s
    case Track(t, k) =>
      if t in s.tracked then s
      else s.(tracked := s.tracked + {t}, transfers := s.transfers[t := Transfer(k, Registered, false)])
    case LookUp(t) =>
      if t !in s.transfers || s.transfers[t].stage != Registered then s
      else if s.transfers[t].key in s.paired
      then s.(transfers := s.transfers[t := s.transfers[t].(stage := Admitted(Count(s, s.transfers[t].key)))])
      else s.(transfers := s.transfers - {t})
    case Untrack(t) => s.(transfers := s.transfers - {t})
  }

  function Run(s: State, actions: seq<Action>): State {
    if actions == [] then s else Next(Run(s, actions[..|actions| - 1]), actions[|actions| - 1])
  }

  function Start(): State {
    State({}, {}, map[], map[], map[])
  }

  /** A revocation is still under way that will cut transfer `t` of `key`. */
  predicate Cuts(s: State, id: nat, key: string, t: nat) {
    id in s.tasks && s.tasks[id].key == key && (s.tasks[id].Walk? || t in s.tasks[id].left)
  }

  ghost predicate TransferOk(s: State, t: nat, tr: Transfer) {
    tr.stage.Admitted? ==>
      && tr.stage.seen <= Count(s, tr.key)
      && (tr.stage.seen == Count(s, tr.key) ==> tr.key in s.paired)
      && (tr.stage.seen < Count(s, tr.key) && !tr.cut ==> exists id :: Cuts(s, id, tr.key, t))
  }

  ghost predicate Inv(s: State) {
    s.transfers.Keys <= s.tracked && forall t :: t in s.transfers ==> TransferOk(s, t, s.transfers[t])
  }

  lemma StillCuts(s: State, a: Action, t: nat)
    requires t in s.transfers && t in s.tracked && TransferOk(s, t, s.transfers[t])
    requires !a.LookUp? && t in Next(s, a).transfers
    ensures TransferOk(Next(s, a), t, Next(s, a).transfers[t])
  {
    var u, tr := Next(s, a), s.transfers[t];
    if tr.stage.Admitted? && tr.stage.seen < Count(s, tr.key) && !u.transfers[t].cut {
      var id :| Cuts(s, id, tr.key, t);
      assert Cuts(u, id, tr.key, t);
    } else if a.Revoke? && a.task !in s.tasks && a.key == tr.key {
      assert Cuts(u, a.task, tr.key, t);
    }
  }

  lemma NextKeeps(s: State, a: Action)
    requires Inv(s)
    ensures Inv(Next(s, a))
  {
    var u := Next(s, a);
    forall t | t in u.transfers
      ensures TransferOk(u, t, u.transfers[t])
    {
      if t in s.transfers && !a.LookUp? {
        StillCuts(s, a, t);
      } else if t in s.transfers {
        LookUpKeeps(s, a, t);
      }
    }
  }

  lemma LookUpKeeps(s: State, a: Action, t: nat)
    requires a.LookUp? && t in s.transfers && t in Next(s, a).transfers && TransferOk(s, t, s.transfers[t])
    ensures TransferOk(Next(s, a), t, Next(s, a).transfers[t])
  {
    var u, tr := Next(s, a), s.transfers[t];
    if tr.stage.Admitted? && tr.stage.seen < Count(s, tr.key) && !tr.cut {
      var id :| Cuts(s, id, tr.key, t);
      assert Cuts(u, id, tr.key, t);
    }
  }

  lemma {:induction false} RunKeeps(actions: seq<Action>)
    ensures Inv(Run(Start(), actions))
  {
    hide Next;
    if actions != [] {
      RunKeeps(actions[..|actions| - 1]);
      NextKeeps(Run(Start(), actions[..|actions| - 1]), actions[|actions| - 1]);
    }
  }

  /**
   Once no revocation of a key is under way, a transfer of that key which still
   runs uncut was let in after the last of them, by a key that is paired.
   */
  lemma RevocationCutsTransfers(actions: seq<Action>, key: string, t: nat)
    requires var s := Run(Start(), actions);
             && (forall id :: id in s.tasks ==> s.tasks[id].key != key)
             && t in s.transfers && s.transfers[t].key == key && s.transfers[t].stage.Admitted? && !s.transfers[t].cut
    ensures var s := Run(Start(), actions);
            s.transfers[t].stage.seen == Count(s, key) && key in s.paired
  {
    RunKeeps(actions);
    var s := Run(Start(), actions);
    assert TransferOk(s, t, s.transfers[t]);
    assert forall id :: !Cuts(s, id, key, t);
  }

  // ---- and cuts nothing else ----

  /** A transfer that registered is let in exactly when its key is paired; otherwise it is gone. */
  lemma LetInExactlyThePaired(s: State, t: nat)
    requires t in s.transfers && s.transfers[t].stage.Registered?
    ensures var u := Next(s, LookUp(t));
            if s.transfers[t].key in s.paired
            then t in u.transfers && u.transfers[t].stage.Admitted? && u.transfers[t].key == s.transfers[t].key
            else t !in u.transfers
  {
  }

  ghost predicate TaskOk(s: State, id: nat)
    requires id in s.tasks
  {
    && Count(s, s.tasks[id].key) > 0
    && (s.tasks[id].Cutting? ==>
          forall t :: t in s.tasks[id].left ==> t in s.tracked && (t in s.transfers ==> s.transfers[t].key == s.tasks[id].key))
  }

  ghost predicate CutOk(s: State) {
    && s.transfers.Keys <= s.tracked
    && (forall id :: id in s.tasks ==> TaskOk(s, id))
    && (forall t :: t in s.transfers && s.transfers[t].cut ==> Count(s, s.transfers[t].key) > 0)
  }

  lemma CutOkKeeps(s: State, a: Action)
    requires CutOk(s)
    ensures CutOk(Next(s, a))
  {
    var u := Next(s, a);
    assert u.transfers.Keys <= u.tracked;
    forall id | id in u.tasks
      ensures TaskOk(u, id)
    {
      TaskOkKeeps(s, a, id);
    }
    hide TaskOk;
    if a.CutOne? && a.task in s.tasks {
      assert TaskOk(s, a.task);
    }
  }

  lemma TaskOkKeeps(s: State, a: Action, id: nat)
    requires s.transfers.Keys <= s.tracked && id in Next(s, a).tasks && (id in s.tasks ==> TaskOk(s, id))
    ensures TaskOk(Next(s, a), id)
  {
  }

  /** A transfer is cut only for a revocation of its key. */
  lemma OnlyTheRevokedAreCut(actions: seq<Action>, t: nat)
    requires var s := Run(Start(), actions); t in s.transfers && s.transfers[t].cut
    ensures var s := Run(Start(), actions); Count(s, s.transfers[t].key) > 0
  {
    CutOkAlong(actions);
  }

  lemma {:induction false} CutOkAlong(actions: seq<Action>)
    ensures CutOk(Run(Start(), actions))
  {
    hide Next;
    if actions != [] {
      CutOkAlong(actions[..|actions| - 1]);
      CutOkKeeps(Run(Start(), actions[..|actions| - 1]), actions[|actions| - 1]);
    }
  }

  /** A revocation takes the key off the list before anything else, and its walk finds every transfer of the key there is. */
  lemma RevocationFinds(s: State, task: nat, key: string)
    requires task !in s.tasks
    ensures var u := Next(s, Revoke(task, key));
            && key !in u.paired && u.transfers == s.transfers && Count(u, key) == Count(s, key) + 1
            && var w := Next(u, WalkRegistry(task));
               && w.tasks[task].Cutting? && w.tasks[task].key == key
               && forall t :: t in w.tasks[task].left <==> t in s.transfers && s.transfers[t].key == key
  {
  }
}
