/** Exactly which interleavings pair a prompt with a schema that was not produced
    for it: those in which an edit that keeps its prompt overtakes a change of it. */
module Overtaking {
  import opened Basics
  import opened Text
  import opened Registry
  import opened History
  import opened Interleaving
  import opened Provenance

  // ------------------------------------------------------- the exact condition

  /** The schema was not produced for two prompts. */
  predicate OnePrompt(produced: set<(string, string)>, schema: string) {
    forall x, y :: x in produced && y in produced && x.1 == schema && y.1 == schema ==> x.0 == y.0
  }

  /** An edit that keeps its prompt lists a latest version whose schema was produced
      for one prompt. */
  predicate ListsOwnSchema(s: State, step: Step, produced: set<(string, string)>)
    requires Enabled(s, step)
  {
    step.ListForUpdate? ==>
      var Editing(found, p) := s.pending[(step.owner, step.op)];
      var listed := ListVersions(s.tables, step.owner, found.id);
      p.prompt == found.prompt && listed != [] ==> OnePrompt(produced, listed[0].schema)
  }

  /** The schema an edit has listed was produced for its prompt exactly if the edit
      is steady. */
  lemma ListedPairIff(s: State, owner: Uuid, op: nat, generated: string, produced: set<(string, string)>)
    requires Inv(s) && Traced(s) && Enabled(s, ListForUpdate(owner, op, generated))
    requires ListsOwnSchema(s, ListForUpdate(owner, op, generated), produced)
    requires
      var s1 := ApplyListForUpdate(s, (owner, op), generated).0;
      s1.produced <= produced
    ensures
      var s1 := ApplyListForUpdate(s, (owner, op), generated).0;
      var Committing(e, schema, _) := s1.pending[(owner, op)];
      ListVersions(s.tables, owner, e.id) != [] ==>
        ((e.prompt, schema) in produced <==> Steady(s, ListForUpdate(owner, op, generated)))
  {
    var Editing(found, p) := s.pending[(owner, op)];
    var listed := ListVersions(s.tables, owner, found.id);
    ListedAreTraced(s, owner, found.id);
    if listed != [] {
      assert (listed[0].prompt, listed[0].schema) in produced;
    }
  }

  /** A request under way still has its endpoint, or the endpoint is gone. */
  lemma ListedUnlessGone(s: State, owner: Uuid, op: nat)
    requires Inv(s) && (owner, op) in s.pending && s.pending[(owner, op)].Editing?
    ensures
      var found := s.pending[(owner, op)].found;
      ListVersions(s.tables, owner, found.id) == [] <==> found.id !in s.tables.endpoints
  {
    var found := s.pending[(owner, op)].found;
    assert PendingOk(s, (owner, op), s.pending[(owner, op)]);
    if found.id in s.tables.endpoints {
      ListedHistory(s.tables, owner, found.id);
      assert IsHistory(s.tables.versions[found.id], s.tables.endpoints[found.id]);
    } else {
      ListedToOthers(s.tables, owner, found.id);
    }
  }

  /** Listing for an update leaves a traced state exactly if it is steady. */
  lemma ListForUpdateTracedIff(s: State, owner: Uuid, op: nat, generated: string)
    requires Inv(s) && Traced(s) && Enabled(s, ListForUpdate(owner, op, generated))
    requires ListsOwnSchema(s, ListForUpdate(owner, op, generated), s.produced)
    ensures Traced(ApplyListForUpdate(s, (owner, op), generated).0) <==> Steady(s, ListForUpdate(owner, op, generated))
  {
    var s1 := ApplyListForUpdate(s, (owner, op), generated).0;
    ListedUnlessGone(s, owner, op);
    ListedPairIff(s, owner, op, generated, s1.produced);
    if Steady(s, ListForUpdate(owner, op, generated)) {
      ListForUpdateKeepsTraced(s, owner, op, generated);
    } else {
      assert s1.pending[(owner, op)].edited.id in s1.tables.endpoints;
    }
  }

  // ------------------------------------------------------------- whole runs

  lemma StepProduces(s: State, step: Step)
    requires Enabled(s, step)
    ensures s.produced <= Apply(s, step).0.produced
  {
  }

  lemma {:induction false} RunProduces(s: State, steps: seq<Step>)
    requires Runs(s, steps)
    ensures s.produced <= Final(s, steps).produced
    decreases |steps|
  {
    if steps == [] {
    } else {
      StepProduces(s, steps[0]);
      RunProduces(Apply(s, steps[0]).0, steps[1..]);
    }
  }

  /** Every state of the run is traced. */
  predicate AlwaysTraced(s: State, steps: seq<Step>)
    requires Runs(s, steps)
    decreases |steps|
  {
    Traced(s) && (steps == [] || AlwaysTraced(Apply(s, steps[0]).0, steps[1..]))
  }

  /** ListsOwnSchema of every step, by what was produced until then. */
  predicate AlwaysListsOwnSchema(s: State, steps: seq<Step>)
    requires Runs(s, steps)
    decreases |steps|
  {
    steps != [] ==>
      ListsOwnSchema(s, steps[0], s.produced) && AlwaysListsOwnSchema(Apply(s, steps[0]).0, steps[1..])
  }

  /** A run stays traced exactly if no edit that keeps its prompt overtakes a
      change of the prompt. */
  lemma {:induction false} AlwaysTracedIffSteady(s: State, steps: seq<Step>)
    requires Inv(s) && Traced(s) && Runs(s, steps) && AlwaysListsOwnSchema(s, steps)
    ensures AlwaysTraced(s, steps) <==> SteadyRun(s, steps)
    decreases |steps|
  {
    if steps == [] {
    } else {
      var step := steps[0];
      var s1 := Apply(s, step).0;
      StepKeepsInv(s, step);
      StepTracedIff(s, step);
      if Traced(s1) {
        AlwaysTracedIffSteady(s1, steps[1..]);
      }
    }
  }

  lemma StepTracedIff(s: State, step: Step)
    requires Inv(s) && Traced(s) && Enabled(s, step) && ListsOwnSchema(s, step, s.produced)
    ensures Traced(Apply(s, step).0) <==> Steady(s, step)
  {
    match step
    case ListForUpdate(owner, op, generated) => ListForUpdateTracedIff(s, owner, op, generated);
    case _ => StepKeepsTraced(s, step);
  }

  /** What a commit that succeeds stores last. */
  lemma CommitStores(s: State, op: Op)
    requires Inv(s) && op in s.pending && s.pending[op].Committing? && ApplyCommit(s, op).1.answer.Ok?
    ensures
      var Committing(e, schema, _) := s.pending[op];
      var rows := VersionRows(ApplyCommit(s, op).0.tables, e.id);
      && e.id in s.tables.endpoints && rows != []
      && rows[|rows| - 1].prompt == e.prompt && rows[|rows| - 1].schema == schema
  {
    var Committing(e, schema, version) := s.pending[op];
    assert PendingOk(s, op, s.pending[op]);
    CommitKeepsIntact(s.tables, op.0, e, schema, version);
  }

  /** An endpoint that is still there was there when the edit listed it. */
  lemma ListedWhatIsStored(s: State, owner: Uuid, op: nat, generated: string, between: seq<Step>)
    requires Inv(s) && Enabled(s, ListForUpdate(owner, op, generated))
    requires Runs(ApplyListForUpdate(s, (owner, op), generated).0, between)
    ensures
      var s1 := ApplyListForUpdate(s, (owner, op), generated).0;
      var s2 := Final(s1, between);
      && Inv(s2) && s1.produced <= s2.produced
      && (s1.pending[(owner, op)].edited.id in s2.tables.endpoints ==>
            ListVersions(s.tables, owner, s1.pending[(owner, op)].edited.id) != [])
  {
    var s1 := ApplyListForUpdate(s, (owner, op), generated).0;
    ListForUpdateKeepsInv(s, (owner, op), generated);
    RunsKeepHistories(s1, between);
    RunProduces(s1, between);
    ListedUnlessGone(s, owner, op);
    assert PendingOk(s1, (owner, op), s1.pending[(owner, op)]);
  }

  /** What the commit of an edit stores, in s2 that a run reached after the edit
      listed: a pair produced together exactly if the edit was steady when it
      listed, whatever happened until the commit. */
  lemma StoredPairIff(s: State, owner: Uuid, op: nat, generated: string, between: seq<Step>, s1: State, s2: State)
    requires Inv(s) && Traced(s) && Enabled(s, ListForUpdate(owner, op, generated))
    requires s1 == ApplyListForUpdate(s, (owner, op), generated).0 && Runs(s1, between) && s2 == Final(s1, between)
    requires (owner, op) in s2.pending && s2.pending[(owner, op)] == s1.pending[(owner, op)]
    requires ListsOwnSchema(s, ListForUpdate(owner, op, generated), s2.produced)
    requires ApplyCommit(s2, (owner, op)).1.answer.Ok?
    ensures
      var rows := VersionRows(ApplyCommit(s2, (owner, op)).0.tables, s2.pending[(owner, op)].edited.id);
      && rows != []
      && ((rows[|rows| - 1].prompt, rows[|rows| - 1].schema) in s2.produced
          <==> Steady(s, ListForUpdate(owner, op, generated)))
  {
    ListedWhatIsStored(s, owner, op, generated, between);
    CommitStores(s2, (owner, op));
    ListedPairIff(s, owner, op, generated, s2.produced);
  }

  // -------------------------------------------------- a run that mixes a pair

  lemma RunsCons(s: State, step: Step, rest: seq<Step>)
    requires Enabled(s, step) && Runs(Apply(s, step).0, rest)
    ensures Runs(s, [step] + rest) && Final(s, [step] + rest) == Final(Apply(s, step).0, rest)
  {
    assert ([step] + rest)[1..] == rest;
  }

  /** Two edits of one endpoint: the first keeps the prompt and finds the endpoint,
      the second changes the prompt and is done before the first goes on. */
  function MixingSteps(owner: Uuid, id: Uuid, c: CreateParams, keep: UpdateParams, change: UpdateParams, vet: Vetting,
                       first: string, second: string): seq<Step>
  {
    [Create(owner, id, c, vet, first)]
    + ([FindForUpdate(owner, 0, id, keep, vet)]
    + ([FindForUpdate(owner, 1, id, change, vet)]
    + ([ListForUpdate(owner, 1, second)]
    + ([Commit(owner, 1)]
    + ([ListForUpdate(owner, 0, "")]
    + ([Commit(owner, 0)] + []))))))
  }

  lemma SoleRow(t: Tables, e: Endpoint)
    requires t.endpoints.Keys <= {e.id}
    ensures !KeyTaken(t, e)
  {
  }

  /** The state after the first request has found the endpoint and the second has
      listed its versions. */
  function BothUnderWay(e: Endpoint, keep: UpdateParams, change: UpdateParams, first: string, second: string,
      prompt: string)
    : State
  {
    State(Tables(map[e.id := e], map[e.id := [SnapshotVersion(e, first, 1)]], [e.id]),
          map[(e.account, 0) := Editing(e, keep), (e.account, 1) := Committing(Edited(e, change), second, 2)],
          {e.id}, {(prompt, first), (change.prompt, second)})
  }

  lemma BothStart(e: Endpoint, keep: UpdateParams, change: UpdateParams, first: string, second: string, prompt: string)
    requires Defaulted(e.responseType, e.status)
    ensures
      var s := BothUnderWay(e, keep, change, first, second, prompt);
      Inv(s) && VersionRows(s.tables, e.id) == [SnapshotVersion(e, first, 1)]
  {
    var s := BothUnderWay(e, keep, change, first, second, prompt);
    EditIsDefaulted(e, change);
    FirstVersion(e, first);
    assert forall op :: op in s.pending ==> PendingOk(s, op, s.pending[op]);
  }

  /** The second request has committed its prompt change, the first is to go on. */
  predicate Overtaken(s: State, e: Endpoint, keep: UpdateParams, second: string) {
    && s.tables.endpoints.Keys == {e.id} && FindById(s.tables, e.account, e.id).Ok?
    && VersionRows(s.tables, e.id) != []
    && (e.account, 0) in s.pending && s.pending[(e.account, 0)] == Editing(e, keep)
    && (e.prompt, second) !in s.produced
    && var rows := VersionRows(s.tables, e.id);
       rows[|rows| - 1].schema == second
  }

  lemma SecondCommits(s: State, s1: State, e: Endpoint, keep: UpdateParams, changed: Endpoint, second: string)
    requires e.id in s.tables.versions && s.tables.endpoints.Keys == {e.id} && changed.id == e.id
    requires (e.prompt, second) !in s.produced
    requires (e.account, 0) in s.pending && s.pending[(e.account, 0)] == Editing(e, keep)
    requires s1.tables == Committed(s.tables, changed, second) && FindById(s1.tables, e.account, e.id).Ok?
    requires s1.pending == s.pending - {(e.account, 1)} && s1.produced == s.produced
    ensures Overtaken(s1, e, keep, second)
  {
    LatestOfCommitted(s.tables, changed, second);
  }

  lemma FirstGoesOn(s: State, e: Endpoint, keep: UpdateParams, second: string)
    requires Overtaken(s, e, keep, second) && Intact(s.tables) && keep.prompt == e.prompt
    ensures
      var steps := [ListForUpdate(e.account, 0, "")] + ([Commit(e.account, 0)] + []);
      Runs(s, steps) && !Traced(Final(s, steps))
  {
    var op := (e.account, 0);
    SoleRow(s.tables, Edited(e, keep));
    LateEditStores(s, op, e, keep, "");
    LatestOfCommitted(s.tables, Edited(e, keep), second);
    var s2 := ApplyListForUpdate(s, op, "").0;
    MixedIsUntraced(ApplyCommit(s2, op).0, e.id, e.prompt, second);
    RunsCons(s2, Commit(e.account, 0), []);
    RunsCons(s, ListForUpdate(e.account, 0, ""), [Commit(e.account, 0)] + []);
  }

  lemma MixedIsUntraced(s: State, id: Uuid, prompt: string, schema: string)
    requires VersionRows(s.tables, id) != [] && (prompt, schema) !in s.produced
    requires
      var rows := VersionRows(s.tables, id);
      rows[|rows| - 1].prompt == prompt && rows[|rows| - 1].schema == schema
    ensures !Traced(s)
  {
    var rows := VersionRows(s.tables, id);
    assert !RowsTraced(rows, s.produced);
  }

  lemma CommitOvertakes(s: State, e: Endpoint, keep: UpdateParams, changed: Endpoint, second: string, next: int)
    requires Intact(s.tables) && s.tables.endpoints.Keys == {e.id} && Owns(s.tables, e.account, e.id)
    requires (e.account, 0) in s.pending && s.pending[(e.account, 0)] == Editing(e, keep)
    requires (e.account, 1) in s.pending && s.pending[(e.account, 1)] == Committing(changed, second, next)
    requires changed.id == e.id && changed.account == e.account && Defaulted(changed.responseType, changed.status)
    requires next == |s.tables.versions[e.id]| + 1 && (e.prompt, second) !in s.produced
    ensures
      var s1 := ApplyCommit(s, (e.account, 1)).0;
      Overtaken(s1, e, keep, second) && Intact(s1.tables)
  {
    SoleRow(s.tables, changed);
    CommitLeaves(s, (e.account, 1), changed, second, next);
    SecondCommits(s, ApplyCommit(s, (e.account, 1)).0, e, keep, changed, second);
  }

  lemma BothToOvertaken(e: Endpoint, keep: UpdateParams, change: UpdateParams, first: string, second: string)
    requires Defaulted(e.responseType, e.status) && change.prompt != e.prompt && first != second
    ensures
      var s1 := ApplyCommit(BothUnderWay(e, keep, change, first, second, e.prompt), (e.account, 1)).0;
      Overtaken(s1, e, keep, second) && Intact(s1.tables)
  {
    BothStart(e, keep, change, first, second, e.prompt);
    EditIsDefaulted(e, change);
    CommitOvertakes(BothUnderWay(e, keep, change, first, second, e.prompt), e, keep, Edited(e, change), second, 2);
  }

  /** The last three steps. */
  lemma MixingEnd(e: Endpoint, keep: UpdateParams, change: UpdateParams, first: string, second: string)
    requires Defaulted(e.responseType, e.status)
    requires keep.prompt == e.prompt && change.prompt != e.prompt && first != second
    ensures
      var s := BothUnderWay(e, keep, change, first, second, e.prompt);
      var steps := [Commit(e.account, 1)] + ([ListForUpdate(e.account, 0, "")] + ([Commit(e.account, 0)] + []));
      Runs(s, steps) && !Traced(Final(s, steps))
  {
    var s := BothUnderWay(e, keep, change, first, second, e.prompt);
    BothToOvertaken(e, keep, change, first, second);
    FirstGoesOn(ApplyCommit(s, (e.account, 1)).0, e, keep, second);
    RunsCons(s, Commit(e.account, 1), [ListForUpdate(e.account, 0, "")] + ([Commit(e.account, 0)] + []));
  }

  // The first four steps.

  /** A row of START's registry after one creation. */
  function Created(e: Endpoint, first: string, pending: map<Op, Pending>, produced: set<(string, string)>): State {
    State(Tables(map[e.id := e], map[e.id := [SnapshotVersion(e, first, 1)]], [e.id]), pending, {e.id}, produced)
  }

  lemma AfterCreate(owner: Uuid, id: Uuid, c: CreateParams, vet: Vetting, first: string)
    requires ValidateCreate(c, vet).None?
    ensures
      var e := NewEndpoint(owner, id, c);
      ApplyCreate(START, owner, id, c, vet, first).0 == Created(e, first, map[], {(c.prompt, first)})
  {
    var e := NewEndpoint(owner, id, c);
    SoleRow(NO_TABLES, e);
    CreateInserts(NO_TABLES, e, SnapshotVersion(e, first, 1));
    assert NO_TABLES.endpoints[e.id := e] == map[e.id := e];
    assert {} + {id} == {id} && {} + {(c.prompt, first)} == {(c.prompt, first)} && [] + [id] == [id];
  }

  lemma AfterFind(e: Endpoint, first: string, pending: map<Op, Pending>, produced: set<(string, string)>, op: nat,
      p: UpdateParams, vet: Vetting)
    requires ValidateUpdate(p, vet).None? && !EndpointSnapshotEqual(e, Edited(e, p))
    ensures
      ApplyFindForUpdate(Created(e, first, pending, produced), (e.account, op), e.id, p, vet).0
      == Created(e, first, pending[(e.account, op) := Editing(e, p)], produced)
  {
  }

  lemma AfterList(e: Endpoint, keep: UpdateParams, change: UpdateParams, first: string, second: string)
    requires Defaulted(e.responseType, e.status) && change.prompt != e.prompt
    ensures
      var pending := map[(e.account, 0) := Editing(e, keep), (e.account, 1) := Editing(e, change)];
      ApplyListForUpdate(Created(e, first, pending, {(e.prompt, first)}), (e.account, 1), second).0
      == BothUnderWay(e, keep, change, first, second, e.prompt)
  {
    var s := BothUnderWay(e, keep, change, first, second, e.prompt);
    BothStart(e, keep, change, first, second, e.prompt);
    ListedHistory(s.tables, e.account, e.id);
    assert {(e.prompt, first)} + {(change.prompt, second)} == {(e.prompt, first), (change.prompt, second)};
  }

  /** From the empty registry: the last version stored pairs the old prompt with
      the schema generated for the new one, which nothing produced. */
  lemma MixingRun(owner: Uuid, id: Uuid, c: CreateParams, keep: UpdateParams, change: UpdateParams, vet: Vetting,
                  first: string, second: string)
    requires ValidateCreate(c, vet).None? && ValidateUpdate(keep, vet).None? && ValidateUpdate(change, vet).None?
    requires keep.prompt == c.prompt && change.prompt != c.prompt && first != second
    requires
      var e := NewEndpoint(owner, id, c);
      FieldsOf(Edited(e, keep)) != FieldsOf(e)
    ensures
      var steps := MixingSteps(owner, id, c, keep, change, vet, first, second);
      Runs(START, steps) && !Traced(Final(START, steps))
  {
    var e := NewEndpoint(owner, id, c);
    var produced := {(c.prompt, first)};
    var one := map[(owner, 0) := Editing(e, keep)];
    var two := one[(owner, 1) := Editing(e, change)];
    var end := [Commit(owner, 1)] + ([ListForUpdate(owner, 0, "")] + ([Commit(owner, 0)] + []));
    NewIsDefaulted(owner, id, c);
    SnapshotEqualIff(e, Edited(e, keep));
    SnapshotEqualIff(e, Edited(e, change));
    AfterCreate(owner, id, c, vet, first);
    AfterFind(e, first, map[], produced, 0, keep, vet);
    AfterFind(e, first, one, produced, 1, change, vet);
    assert map[][(owner, 0) := Editing(e, keep)] == one;
    MixingMiddle(e, keep, change, first, second);
    var tail := [ListForUpdate(owner, 1, second)] + end;
    RunsCons(Created(e, first, one, produced), FindForUpdate(owner, 1, id, change, vet), tail);
    RunsCons(Created(e, first, map[], produced), FindForUpdate(owner, 0, id, keep, vet),
             [FindForUpdate(owner, 1, id, change, vet)] + tail);
    RunsCons(START, Create(owner, id, c, vet, first),
             [FindForUpdate(owner, 0, id, keep, vet)] + ([FindForUpdate(owner, 1, id, change, vet)] + tail));
  }

  lemma MixingMiddle(e: Endpoint, keep: UpdateParams, change: UpdateParams, first: string, second: string)
    requires Defaulted(e.responseType, e.status)
    requires keep.prompt == e.prompt && change.prompt != e.prompt && first != second
    ensures
      var two := map[(e.account, 0) := Editing(e, keep)][(e.account, 1) := Editing(e, change)];
      var s := Created(e, first, two, {(e.prompt, first)});
      var end := [Commit(e.account, 1)] + ([ListForUpdate(e.account, 0, "")] + ([Commit(e.account, 0)] + []));
      var steps := [ListForUpdate(e.account, 1, second)] + end;
      Runs(s, steps) && !Traced(Final(s, steps))
  {
    var two := map[(e.account, 0) := Editing(e, keep)][(e.account, 1) := Editing(e, change)];
    var end := [Commit(e.account, 1)] + ([ListForUpdate(e.account, 0, "")] + ([Commit(e.account, 0)] + []));
    assert two == map[(e.account, 0) := Editing(e, keep), (e.account, 1) := Editing(e, change)];
    AfterList(e, keep, change, first, second);
    MixingEnd(e, keep, change, first, second);
    RunsCons(Created(e, first, two, {(e.prompt, first)}), ListForUpdate(e.account, 1, second), end);
  }

  const FULL_VETTING := Vetting(true, true)

  function UsersCreated(): CreateParams {
    CreateParams("GET", "/users", "", "list", "", false, "", "", "", None)
  }

  function UsersEdited(description: string, prompt: string): UpdateParams {
    UpdateParams("GET", "/users", description, prompt, "", None, "", None, None, None)
  }

  lemma UsersAreValid(description: string, prompt: string)
    requires prompt == "list" || prompt == "page"
    ensures ValidateCreate(UsersCreated(), FULL_VETTING).None?
    ensures ValidateUpdate(UsersEdited(description, prompt), FULL_VETTING).None?
  {
    assert ToUpper("GET") == "GET" && "GET" in METHODS;
    assert !Blank("GET") && !Blank("/users") && !Blank("list") && !Blank("page");
  }

  /** One such run: an edit of the description and an edit of the prompt. */
  lemma MixingExample()
    ensures
      var keep, change := UsersEdited("all", "list"), UsersEdited("", "page");
      var steps := MixingSteps(0, 0, UsersCreated(), keep, change, FULL_VETTING, "a", "b");
      Runs(START, steps) && !Traced(Final(START, steps))
  {
    UsersAreValid("all", "list");
    UsersAreValid("", "page");
    assert "list"[0] != "page"[0] && "a"[0] != "b"[0] && |"all"| != |""|;
    MixingRun(0, 0, UsersCreated(), UsersEdited("all", "list"), UsersEdited("", "page"), FULL_VETTING, "a", "b");
  }
}
