/** The slot tables of JobZone and the attached threads of Lifecycle: one follows the other over any run. */
module ThreadTable {
  import opened Options
  import opened Lifecycle
  import opened LifecycleInvariant
  import opened LifecycleSteps
  import opened LifecycleTheorems
  import opened LifecycleHolders
  import Z = JobZone

  // Every task has an entry of its own.
  ghost predicate OneEach(who: map<Tid, Z.Thread>) {
    forall t, u :: t in who && u in who && who[t] == who[u] ==> t == u
  }
  // The entries of the tasks that occur in a run are known.
  ghost predicate Known(s: State, es: seq<Event>, who: map<Tid, Z.Thread>)
    decreases |es|
  {
    s.tasks.Keys <= who.Keys && (es == [] || Known(Apply(s, es[0]), es[1..], who))
  }
  function Entries(a: set<Tid>, who: map<Tid, Z.Thread>): set<Z.Thread> { set t | t in a && t in who :: who[t] }

  // What __attach_to_job and __detach_from_job do to the table of job j during a run.
  function TableOp(m: Move, who: map<Tid, Z.Thread>): seq<Z.TableOp> {
    match m
    case Stay => []
    case Joins(t) => if t in who then [Z.Attach(who[t])] else []
    case Leaves(t) => if t in who then [Z.Detach(who[t])] else []
  }
  function TableOps(s: State, es: seq<Event>, j: Ref, who: map<Tid, Z.Thread>): seq<Z.TableOp>
    decreases |es|
  {
    if es == [] then [] else TableOp(MoveOf(s, es[0], j), who) + TableOps(Apply(s, es[0]), es[1..], j, who)
  }

  lemma EntriesMoved(a: set<Tid>, m: Move, who: map<Tid, Z.Thread>)
    requires OneEach(who) && (m.Joins? || m.Leaves? ==> m.t in who)
    ensures Entries(Moved(a, m), who) == Z.MembersAfter(Entries(a, who), TableOp(m, who))
  {
    var e := Entries(a, who);
    match m
    case Stay =>
    case Joins(t) =>
      assert [Z.Attach(who[t])][1..] == [];
      assert Entries(a + {t}, who) == e + {who[t]};
    case Leaves(t) =>
      assert [Z.Detach(who[t])][1..] == [];
      forall x ensures x in Entries(a - {t}, who) <==> x in e - {who[t]} { }
      assert Entries(a - {t}, who) == e - {who[t]};
  }
  lemma {:induction false} MembersSplit(s: set<Z.Thread>, a: seq<Z.TableOp>, b: seq<Z.TableOp>)
    ensures Z.MembersAfter(s, a + b) == Z.MembersAfter(Z.MembersAfter(s, a), b)
    decreases |a|
  {
    if a == [] {
      assert a + b == b;
    } else {
      assert (a + b)[1..] == a[1..] + b;
      MembersSplit(match a[0] case Attach(th) => s + {th} case Detach(th) => s - {th}, a[1..], b);
    }
  }
  lemma MoverIsTask(s: State, e: Event, j: Ref)
    ensures var m := MoveOf(s, e, j); m.Joins? || m.Leaves? ==> m.t in s.tasks
  {
  }
  lemma {:induction false} MembersFollow(s: State, es: seq<Event>, j: Ref, who: map<Tid, Z.Thread>)
    requires Inv(s) && OneEach(who) && Known(s, es, who)
    ensures Entries(Attached(Exec(s, es), j), who) ==
      Z.MembersAfter(Entries(Attached(s, j), who), TableOps(s, es, j, who))
    decreases |es|
  {
    hide Inv, Apply, Attached, Entries, MoveOf, TableOp, Moved;
    if es != [] {
      var m := Apply(s, es[0]);
      var v := MoveOf(s, es[0], j);
      Step(s, es[0]);
      AttachedStep(s, es[0], j);
      MoverIsTask(s, es[0], j);
      EntriesMoved(Attached(s, j), v, who);
      MembersSplit(Entries(Attached(s, j), who), TableOp(v, who), TableOps(m, es[1..], j, who));
      MembersFollow(m, es[1..], j, who);
    }
  }

  // After any run the table that has seen the attaches and detaches of a job holds exactly the entries
  // of its attached threads, each once and in the slot of its pid.
  lemma TableFollowsRun(es: seq<Event>, j: Ref, who: map<Tid, Z.Thread>, size: nat)
    requires size > 0 && OneEach(who) && Known(Init, es, who)
    ensures var empty := seq(size, _ => []);
      Z.TableIs(Z.TableAfter(empty, TableOps(Init, es, j, who)), Entries(Attached(Exec(Init, es), j), who))
  {
    hide Known, Exec, TableOps;
    var empty: seq<seq<Z.Thread>> := seq(size, _ => []);
    assert Inv(Init);
    assert Attached(Init, j) == {} && Entries({}, who) == {};
    MembersFollow(Init, es, j, who);
    assert Z.TableIs(empty, {});
    Z.TableAgrees(empty, {}, TableOps(Init, es, j, who));
  }
}
