/** The protocol does not get stuck in its last leg: a target that confirms can always finish. */
module MigrationProgress {
  import opened MigrationProtocol
  import opened MigrationInvariant
  import opened MigrationSteps
  import opened MigrationSafety

  /** w' comes after w by some steps. */
  ghost predicate Leads(w: World, w': World, n: nat)
    decreases n
  {
    if n == 0 then w' == w else exists m :: Next(w, m) && Leads(m, w', n - 1)
  }

  lemma OneStep(w: World, h: HostId, e: Event)
    requires Inv(w) && Enabled(w, h, e)
    ensures Next(w, Step(w, h, e)) && Inv(Step(w, h, e))
  {
    hide Inv;
    StepKeeps(w, h, e);
  }

  /** What a source does with a commit that it does not refuse. */
  lemma CommitActs(h: HostId, x: Host, id: MigId, sha: nat)
    requires x.op == Free && x.st.role == Source && x.st.id == id
    requires x.st.phase == Committed || (SourceLocked(x) && x.st.manifest.value.sha == sha)
    ensures Act(h, x, HandleCommit(id, sha)).Effect?
    ensures x.st.phase == Committed ==> Act(h, x, HandleCommit(id, sha)).out == {CommitOk(id)}
    ensures x.st.phase != Committed ==>
      var y := Act(h, x, HandleCommit(id, sha)).host;
      Act(h, y, OpStep(true, 0)).Effect? && Act(h, y, OpStep(true, 0)).out == {CommitOk(id)}
  {
  }

  lemma {:induction false} LeadsTwice(w: World, w1: World, w2: World, m: nat, n: nat)
    requires Leads(w, w1, m) && Leads(w1, w2, n)
    ensures Leads(w, w2, m + n)
    decreases m
  {
    hide Next;
    if m > 0 {
      var v :| Next(w, v) && Leads(v, w1, m - 1);
      LeadsTwice(v, w1, w2, m - 1, n);
    }
  }

  lemma LeadsOne(w: World, h: HostId, e: Event)
    requires Inv(w) && Enabled(w, h, e)
    ensures Leads(w, Step(w, h, e), 1) && Inv(Step(w, h, e))
  {
    hide Inv, Enabled, Step;
    OneStep(w, h, e);
    assert Leads(Step(w, h, e), Step(w, h, e), 0);
  }

  lemma WipedActs(h: HostId, x: Host)
    requires x.op == Wiped
    ensures Act(h, x, OpStep(true, 0)).Effect? && Act(h, x, OpStep(true, 0)).out == {CommitOk(x.st.id)}
  {
  }

  /** The source answers a request to commit it has received: one step, or two if it has yet to wipe its keys.
      A source that wiped them and was about to save phase committed just does that. */
  lemma SourceAnswers(w: World, a: HostId, b: HostId, id: MigId, sha: nat) returns (w': World, n: nat)
    requires Inv(w) && a in w.hosts && b in w.hosts && a != b
    requires CommitReq(id, a, sha) in w.msgs
    ensures Inv(w') && Leads(w, w', n) && n <= 2 && CommitOk(id) in w'.msgs
    ensures b in w'.hosts && w'.hosts[b] == w.hosts[b] && w.msgs <= w'.msgs
  {
    hide Inv, Act, Leads;
    CommitNeverRefused(w, a, id, sha);
    if w.hosts[a].op == Wiped {
      WipedActs(a, w.hosts[a]);
      LeadsOne(w, a, OpStep(true, 0));
      w', n := Step(w, a, OpStep(true, 0)), 1;
    } else {
      var e := HandleCommit(id, sha);
      CommitActs(a, w.hosts[a], id, sha);
      LeadsOne(w, a, e);
      w', n := Step(w, a, e), 1;
      if w.hosts[a].st.phase != Committed {
        var w1 := w';
        LeadsOne(w1, a, OpStep(true, 0));
        w', n := Step(w1, a, OpStep(true, 0)), 2;
        LeadsTwice(w, w1, w', 1, 1);
      }
    }
  }

  lemma Confirmed(h: HostId, x: Host)
    requires x.job.Job? && x.job.pc == WaitCommit
    ensures Act(h, x, JobCommitOk).Effect? && Act(h, Act(h, x, JobCommitOk).host, JobGo).Effect?
    ensures var y := Act(h, Act(h, x, JobCommitOk).host, JobGo).host; y.st == x.st.(phase := Done) && y.keys == x.keys
  {
  }

  lemma TargetCloses(w: World, b: HostId) returns (w': World)
    requires Inv(w) && b in w.hosts && w.hosts[b].job.Job? && w.hosts[b].job.pc == WaitCommit
    requires CommitOk(w.hosts[b].job.id) in w.msgs
    ensures Inv(w') && Leads(w, w', 2)
    ensures b in w'.hosts && w'.hosts[b].st == w.hosts[b].st.(phase := Done) && w'.hosts[b].keys == w.hosts[b].keys
  {
    hide Inv;
    hide Leads, Act;
    var x := w.hosts[b];
    Confirmed(b, x);
    LeadsOne(w, b, JobCommitOk);
    var w1 := Step(w, b, JobCommitOk);
    LeadsOne(w1, b, JobGo);
    w' := Step(w1, b, JobGo);
    LeadsTwice(w, w1, w', 1, 1);
  }

  /** Whatever happened before, and whatever its source is doing, a target that is about to confirm can be
      brought to phase done with its keys. */
  lemma ConfirmationCanFinish(w: World, b: HostId) returns (w': World, n: nat)
    requires Inv(w) && b in w.hosts && w.hosts[b].job.Job? && w.hosts[b].job.pc == AskCommit
    ensures Inv(w') && Leads(w, w', n) && n <= 5
    ensures b in w'.hosts && w'.hosts[b].st == w.hosts[b].st.(phase := Done) && w'.hosts[b].keys == w.hosts[b].keys
  {
    hide Inv, Leads;
    var x := w.hosts[b];
    Here(w, b);
    SourceIsAnother(w, b);
    LeadsOne(w, b, JobGo);
    var w1 := Step(w, b, JobGo);
    var w2, n2 := SourceAnswers(w1, x.st.peer, b, x.job.id, x.job.manifest.value.sha);
    w' := TargetCloses(w2, b);
    n := 1 + n2 + 2;
    LeadsTwice(w, w1, w2, 1, n2);
    LeadsTwice(w, w2, w', 1 + n2, 2);
  }

  lemma SourceIsAnother(w: World, b: HostId)
    requires Inv(w) && b in w.hosts && HoldsClone(w.hosts[b])
    ensures w.hosts[b].st.peer != b && w.hosts[b].st.peer in w.hosts
  {
  }
}
