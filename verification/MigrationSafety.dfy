/** What the migration protocol guarantees in every run. */
module MigrationSafety {
  import opened MigrationProtocol
  import opened MigrationInvariant
  import opened MigrationSteps

  lemma {:induction false} RunKeepsInv(ws: seq<World>, i: nat)
    requires IsRun(ws) && i < |ws|
    ensures Inv(ws[i])
  {
    hide Inv, Enabled, Step, Initial;
    if i == 0 {
      InitialInv(ws[0]);
    } else {
      RunKeepsInv(ws, i - 1);
      assert Next(ws[i - 1], ws[i - 1 + 1]);
      var h, e :| Enabled(ws[i - 1], h, e) && ws[i] == Step(ws[i - 1], h, e);
      StepKeeps(ws[i - 1], h, e);
    }
  }

  /** The golden rule: the same key never runs on two instances. */
  lemma NeverTwoRunners(ws: seq<World>, i: nat, a: HostId, b: HostId, k: Key)
    requires IsRun(ws) && i < |ws|
    requires a in ws[i].hosts && b in ws[i].hosts && a != b
    ensures !(Runs(ws[i].hosts[a], k) && Runs(ws[i].hosts[b], k))
    ensures
      var x, y := ws[i].hosts[a], ws[i].hosts[b];
      k in x.keys && k in y.keys ==> (x.blocked && !x.live) || (y.blocked && !y.live)
  {
    hide IsRun;
    RunKeepsInv(ws, i);
    var x, y := ws[i].hosts[a], ws[i].hosts[b];
    assert Sane(x) && Sane(y);
    if k in x.keys && k in y.keys {
      assert k in x.keys * y.keys;
    }
  }

  ghost predicate Held(w: World, k: Key) {
    exists h :: h in w.hosts && k in w.hosts[h].keys
  }

  /** One step neither loses the last copy of a key nor makes a key. */
  lemma StepConservesKeys(w: World, h: HostId, e: Event, k: Key)
    requires Inv(w) && Enabled(w, h, e)
    ensures Held(Step(w, h, e), k) <==> Held(w, k)
  {
    var x, x', w' := w.hosts[h], Step(w, h, e).hosts[h], Step(w, h, e);
    hide Inv, Enabled, Step, Act;
    if k in x.keys && k !in x'.keys {
      var b := OtherHolder(w, h, e, k);
      assert w'.hosts[b] == w.hosts[b] by { StepLocal(w, h, e); }
    }
    if k in x'.keys && k !in x.keys {
      var a := OtherOrigin(w, h, e, k);
      assert k in w.hosts[a].keys;
    }
    StepLocal(w, h, e);
    if Held(w, k) {
      var c :| c in w.hosts && k in w.hosts[c].keys;
      assert c in w'.hosts;
      if c != h { assert k in w'.hosts[c].keys; }
    }
    if Held(w', k) {
      var c :| c in w'.hosts && k in w'.hosts[c].keys;
      if c != h { assert k in w.hosts[c].keys; }
    }
  }

  lemma StepLocal(w: World, h: HostId, e: Event)
    requires Enabled(w, h, e)
    ensures Step(w, h, e).hosts.Keys == w.hosts.Keys
    ensures forall b :: b in w.hosts && b != h ==> Step(w, h, e).hosts[b] == w.hosts[b]
  {
  }

  /** Keys are deleted in two places only. */
  lemma KeysGo(h: HostId, x: Host, e: Event, k: Key)
    requires Sane(x) && Act(h, x, e).Effect? && k in x.keys && k !in Act(h, x, e).host.keys
    ensures
      (e.HandleCommit? && SourceLocked(x) && e.id == x.st.id && e.sha == x.st.manifest.value.sha)
      || (e.JobGo? && x.job.Job? && x.job.pc == RollRestore && x.st.role == Target && x.st.phase == RollingBack && HoldsClone(x))
  {
  }

  /** When an instance deletes a key, the other side of its migration has it. */
  lemma OtherHolder(w: World, h: HostId, e: Event, k: Key) returns (b: HostId)
    requires Inv(w) && Enabled(w, h, e)
    requires k in w.hosts[h].keys && k !in Act(h, w.hosts[h], e).host.keys
    ensures b in w.hosts && b != h && k in w.hosts[b].keys
  {
    var x := w.hosts[h];
    Here(w, h);
    KeysGo(h, x, e, k);
    if e.HandleCommit? {
      b := w.issued[x.st.id].target;
      WipeLeavesClone(w, h, e.id, e.sha);
    } else {
      b := x.st.peer;
      RestoreLeavesSource(w, h);
    }
  }

  lemma WipeLeavesClone(w: World, h: HostId, id: MigId, sha: nat)
    requires Inv(w) && h in w.hosts && CommitReq(id, h, sha) in w.msgs && w.hosts[h].op == Free
    requires SourceLocked(w.hosts[h]) && w.hosts[h].st.id == id && w.hosts[h].keys != {}
    ensures
      id in w.issued && w.issued[id].target in w.hosts && w.issued[id].target != h
      && w.hosts[w.issued[id].target].keys == w.hosts[h].keys
  {
    assert CommitTrue(w, CommitReq(id, h, sha)) && MsgAddressed(w, CommitReq(id, h, sha));
    var mf :| LockOk(id, mf) in w.msgs && mf.sha == sha && Keeps(w, id, mf);
    assert Depends(w, w.issued[id].target);
    assert SourceHeld(w, id, mf) && Sane(w.hosts[h]);
  }

  lemma RestoreLeavesSource(w: World, h: HostId)
    requires Inv(w) && h in w.hosts && HoldsClone(w.hosts[h]) && w.hosts[h].st.phase == RollingBack
    ensures
      var src := w.hosts[h].st.peer;
      src in w.hosts && src != h && w.hosts[src].keys == w.hosts[h].keys
  {
    var x := w.hosts[h];
    var mf := x.st.manifest.value;
    assert Depends(w, h);
    assert SourceHeld(w, x.st.id, mf);
    assert !TargetPast(w, x.st.id);
    assert CommitReq(x.st.id, x.st.peer, mf.sha) in w.msgs ==> CommitTrue(w, CommitReq(x.st.id, x.st.peer, mf.sha));
  }

  /** A key comes to an instance only from the source that holds it. */
  lemma OtherOrigin(w: World, h: HostId, e: Event, k: Key) returns (a: HostId)
    requires Inv(w) && Enabled(w, h, e)
    requires k !in w.hosts[h].keys && k in Act(h, w.hosts[h], e).host.keys
    ensures a in w.hosts && a != h && k in w.hosts[a].keys
  {
    Here(w, h);
    KeysCome(h, w.hosts[h], e, k);
    a := w.hosts[h].job.src;
    ImportsFromHeldSource(w, h);
  }

  lemma KeysCome(h: HostId, x: Host, e: Event, k: Key)
    requires Sane(x) && Act(h, x, e).Effect? && k !in x.keys && k in Act(h, x, e).host.keys
    ensures e.JobGo? && x.job.Job? && x.job.pc == Import && x.job.manifest.Some? && k in x.job.manifest.value.keys
  {
  }

  /** No key is ever lost and none appears: the keys held at the end are those held at the start. */
  lemma {:induction false} KeysConserved(ws: seq<World>, i: nat, k: Key)
    requires IsRun(ws) && i < |ws|
    ensures Held(ws[i], k) <==> Held(ws[0], k)
  {
    hide Inv, Enabled, Step, Initial, Held;
    if i > 0 {
      KeysConserved(ws, i - 1, k);
      RunKeepsInv(ws, i - 1);
      assert Next(ws[i - 1], ws[i - 1 + 1]);
      var h, e :| Enabled(ws[i - 1], h, e) && ws[i] == Step(ws[i - 1], h, e);
      StepConservesKeys(ws[i - 1], h, e, k);
    }
  }

  /** No target is ever told that its commit is refused, and no job ever ends that way. */
  lemma CommitNeverConflicts(ws: seq<World>, i: nat, id: MigId, h: HostId)
    requires IsRun(ws) && i < |ws|
    ensures CommitConflict(id) !in ws[i].msgs
    ensures h in ws[i].hosts && ws[i].hosts[h].job.Job? ==> ws[i].hosts[h].job.pc != SaveRefused
  {
    hide IsRun, Inv;
    RunKeepsInv(ws, i);
    if CommitConflict(id) in ws[i].msgs {
      Message(ws[i], CommitConflict(id));
      assert false;
    }
    if h in ws[i].hosts { Here(ws[i], h); }
  }

  /** While a target holds the clone of a migration, its source is stopped for that very
      migration, or has committed it, and no abort of it was ever sent. */
  lemma CloneMeansStoppedSource(ws: seq<World>, i: nat, b: HostId)
    requires IsRun(ws) && i < |ws| && b in ws[i].hosts && HoldsClone(ws[i].hosts[b])
    ensures
      var w := ws[i];
      var st := w.hosts[b].st;
      && AbortReq(st.id, st.peer) !in w.msgs
      && st.peer in w.hosts
      && var a := w.hosts[st.peer];
         a.st.role == Source && a.st.id == st.id && BlocksSessions(a.st) && a.blocked && !a.live
  {
    hide IsRun;
    RunKeepsInv(ws, i);
    var w := ws[i];
    Here(w, b);
    assert SourceHeld(w, w.hosts[b].st.id, w.hosts[b].st.manifest.value);
    Here(w, w.hosts[b].st.peer);
  }

  /** An unlocked source and a target of the same migration never both have its keys. */
  lemma ReleasedMeansCloneGone(ws: seq<World>, i: nat, a: HostId, b: HostId)
    requires IsRun(ws) && i < |ws| && a in ws[i].hosts && b in ws[i].hosts
    requires ws[i].hosts[a].st.role == Source && ws[i].hosts[a].st.phase == Unlocked
    requires ws[i].hosts[b].st.role == Target && ws[i].hosts[b].st.id == ws[i].hosts[a].st.id
    ensures !HoldsClone(ws[i].hosts[b])
  {
    hide IsRun;
    RunKeepsInv(ws, i);
    var w := ws[i];
    Here(w, a);
    Here(w, b);
    if HoldsClone(w.hosts[b]) {
      CloneMeansStoppedSource(ws, i, b);
    }
  }

  /** A source that committed stays committed, without keys, for ever. */
  lemma TombstoneStays(w: World, h: HostId, e: Event, a: HostId)
    requires Inv(w) && Enabled(w, h, e) && a in w.hosts
    requires w.hosts[a].st.role == Source && w.hosts[a].st.phase == Committed
    ensures
      var a' := Step(w, h, e).hosts[a];
      a'.st == w.hosts[a].st && a'.keys == {} && a'.blocked && !a'.live
  {
    hide Inv;
    StepLocal(w, h, e);
    Here(w, a);
    StepKeeps(w, h, e);
    Here(Step(w, h, e), a);
  }
}
