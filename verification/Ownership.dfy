/** The ownership table of the application, as an instance of the generic schema. */
module Ownership {
  import opened Sql
  import opened TenantScope
  import opened FlushSafety
  import opened FrameLimits

  // The covered tables by their distance from a root.

  datatype RootTable =
    | Projects | McpConnections | Notifications | Drafts | AuditLogs

  datatype FirstTable =
    | ProjectTaskTypes | ProjectPhases | RequirementDocumentCreationReceipts
    | RequirementVerificationPlans | ProjectGoalSourceEvents | FixedApprovalGuestBindings
    | ProjectGuestInvitations | ProjectGuestInvitationChecks | ProjectGuestInvitationEvents
    | ProjectGuestParticipations | ArtifactPublicationGrants | ArtifactPublicationEvents
    | ArtifactPublications | FixedApprovalRequests | LegacyApprovalImports | ArtifactReleases
    | ProjectDocuments | Specifications | ProjectMembers | RequirementDocuments | Tasks | Boards
    | Milestones | TaskChangeLogs | TestDesigns | NotificationEmailDeliveries
    | McpAuthorizationRequests | McpCredentials | McpOperationReceipts

  datatype SecondTable =
    | ProjectPhaseEvents | RequirementVerificationRequests | RequirementVerificationEvidenceSets
    | RequirementVerificationPlanRevisions | NotificationEmailAttempts | ArtifactPublicationNodes
    | FixedApprovalEvents | FixedApprovalRequirementBases | ArtifactPreservations
    | ArtifactReleaseNodes | SpecificationRevisions | SpecificationComments | SpecificationLinks
    | DocumentRevisions | DocumentAttachments | DocumentLinks | BoardColumns | TaskComments
    | TaskDependencies

  datatype ThirdTable =
    | RequirementVerificationEvents | RequirementVerificationEvidenceObjects
    | ArtifactPreservationObjects | RequirementTaskRelations | RequirementTestItems
    | TestCaseIssues | TestExecutions | TestDesignCommentChanges

  datatype FourthTable =
    | TestEvidence | CommentMentions

  // Three groups of tables are owned alike.

  datatype DocumentTable =
    | RequirementSections | Requirements | RequirementOpenIssues | RequirementApprovals
    | RequirementChangeLogs | RequirementTargetComments | RequirementRelations

  datatype RequirementTable =
    | RequirementRevisions | RequirementDetails | RequirementLinks | RequirementReviews
    | RequirementComments

  datatype DesignTable =
    | TestPatternTables | TestItems | TestFactors | TestFactorLevels | TestPatterns
    | TestPatternValues | TestExpectedValues | TestPatternExpectedValues | TestItemPatterns
    | TestDesignColumns | TestDesignLayouts | TestCases | TestDesignComments

  datatype Table =
    | Root(root: RootTable)
    | First(first: FirstTable)
    | Second(second: SecondTable)
    | Third(third: ThirdTable)
    | Fourth(fourth: FourthTable)
    | DocumentPart(documentPart: DocumentTable)
    | RequirementPart(requirementPart: RequirementTable)
    | DesignPart(designPart: DesignTable)
    | OtherTable(name: string)

  // Each table's owners; every parent is referenced by its "id".

  function FirstOwners(t: FirstTable): Filter<Table> {
    match t
    case ProjectTaskTypes => AllOf([Owner("project_id", Root(Projects))])
    case ProjectPhases => AllOf([Owner("project_id", Root(Projects))])
    case RequirementDocumentCreationReceipts => AllOf([Owner("project_id", Root(Projects))])
    case RequirementVerificationPlans => AllOf([Owner("project_id", Root(Projects))])
    case ProjectGoalSourceEvents => AllOf([Owner("project_id", Root(Projects))])
    case FixedApprovalGuestBindings => AllOf([Owner("project_id", Root(Projects))])
    case ProjectGuestInvitations => AllOf([Owner("project_id", Root(Projects))])
    case ProjectGuestInvitationChecks => AllOf([Owner("project_id", Root(Projects))])
    case ProjectGuestInvitationEvents => AllOf([Owner("project_id", Root(Projects))])
    case ProjectGuestParticipations => AllOf([Owner("project_id", Root(Projects))])
    case ArtifactPublicationGrants => AllOf([Owner("project_id", Root(Projects))])
    case ArtifactPublicationEvents => AllOf([Owner("project_id", Root(Projects))])
    case ArtifactPublications => AllOf([Owner("project_id", Root(Projects))])
    case FixedApprovalRequests => AllOf([Owner("project_id", Root(Projects))])
    case LegacyApprovalImports => AllOf([Owner("project_id", Root(Projects))])
    case ArtifactReleases => AllOf([Owner("project_id", Root(Projects))])
    case ProjectDocuments => AllOf([Owner("project_id", Root(Projects))])
    case Specifications => AllOf([Owner("project_id", Root(Projects))])
    case ProjectMembers => AllOf([Owner("project_id", Root(Projects))])
    case RequirementDocuments => AllOf([Owner("project_id", Root(Projects))])
    case Tasks => AllOf([Owner("project_id", Root(Projects))])
    case Boards => AllOf([Owner("project_id", Root(Projects))])
    case Milestones => AllOf([Owner("project_id", Root(Projects))])
    case TaskChangeLogs => AllOf([Owner("project_id", Root(Projects))])
    case TestDesigns => AllOf([Owner("project_id", Root(Projects))])
    case NotificationEmailDeliveries => AllOf([Owner("notification_id", Root(Notifications))])
    case McpAuthorizationRequests => AllOf([Owner("connection_id", Root(McpConnections))])
    case McpCredentials => AllOf([Owner("connection_id", Root(McpConnections))])
    case McpOperationReceipts => AllOf([Owner("connection_id", Root(McpConnections))])
  }

  function SecondOwners(t: SecondTable): Filter<Table> {
    match t
    case ProjectPhaseEvents =>
      AllOf([Owner("project_id", Root(Projects)), Owner("phase_id", First(ProjectPhases))])
    case RequirementVerificationRequests =>
      AllOf([Owner("plan_id", First(RequirementVerificationPlans))])
    case RequirementVerificationEvidenceSets =>
      AllOf([Owner("plan_id", First(RequirementVerificationPlans))])
    case RequirementVerificationPlanRevisions =>
      AllOf([Owner("plan_id", First(RequirementVerificationPlans))])
    case NotificationEmailAttempts =>
      AllOf([Owner("delivery_id", First(NotificationEmailDeliveries))])
    case ArtifactPublicationNodes => AllOf([Owner("publication_id", First(ArtifactPublications))])
    case FixedApprovalEvents => AllOf([Owner("approval_id", First(FixedApprovalRequests))])
    case FixedApprovalRequirementBases =>
      AllOf([Owner("approval_id", First(FixedApprovalRequests))])
    case ArtifactPreservations => AllOf([Owner("release_id", First(ArtifactReleases))])
    case ArtifactReleaseNodes => AllOf([Owner("release_id", First(ArtifactReleases))])
    case SpecificationRevisions => AllOf([Owner("specification_id", First(Specifications))])
    case SpecificationComments => AllOf([Owner("specification_id", First(Specifications))])
    case SpecificationLinks => AllOf([Owner("specification_id", First(Specifications))])
    case DocumentRevisions => AllOf([Owner("document_id", First(ProjectDocuments))])
    case DocumentAttachments => AllOf([Owner("document_id", First(ProjectDocuments))])
    case DocumentLinks => AllOf([Owner("document_id", First(ProjectDocuments))])
    case BoardColumns => AllOf([Owner("board_id", First(Boards))])
    case TaskComments => AllOf([Owner("task_id", First(Tasks))])
    case TaskDependencies =>
      AllOf([Owner("predecessor_task_id", First(Tasks)), Owner("successor_task_id", First(Tasks))])
  }

  function ThirdOwners(t: ThirdTable): Filter<Table> {
    match t
    case RequirementVerificationEvents =>
      AllOf([Owner("request_id", Second(RequirementVerificationRequests))])
    case RequirementVerificationEvidenceObjects =>
      AllOf([Owner("set_id", Second(RequirementVerificationEvidenceSets))])
    case ArtifactPreservationObjects =>
      AllOf([Owner("preservation_id", Second(ArtifactPreservations))])
    case RequirementTaskRelations =>
      AllOf([Owner("requirement_id", DocumentPart(Requirements)), Owner("task_id", First(Tasks))])
    case RequirementTestItems =>
      AllOf([Owner("requirement_id", DocumentPart(Requirements)), Owner("item_id", DesignPart(TestItems))])
    case TestCaseIssues =>
      AllOf([Owner("case_id", DesignPart(TestCases)), Owner("task_id", First(Tasks))])
    case TestExecutions => AllOf([Owner("case_id", DesignPart(TestCases))])
    case TestDesignCommentChanges => AllOf([Owner("comment_id", DesignPart(TestDesignComments))])
  }

  const MENTIONED_IN_COMMENT := Owner("requirement_comment_id", RequirementPart(RequirementComments))
  const MENTIONED_AT_TARGET := Owner("requirement_target_comment_id", DocumentPart(RequirementTargetComments))
  const MENTIONED_ON_TASK := Owner("task_comment_id", Second(TaskComments))
  const MENTIONED_IN_DESIGN := Owner("test_design_comment_id", DesignPart(TestDesignComments))

  function FourthOwners(t: FourthTable): Filter<Table> {
    match t
    case TestEvidence => AllOf([Owner("execution_id", Third(TestExecutions))])
    case CommentMentions => AnyOf([MENTIONED_IN_COMMENT, MENTIONED_AT_TARGET, MENTIONED_ON_TASK, MENTIONED_IN_DESIGN])
  }

  function OwnedBy(t: Table): Filter<Table> {
    match t
    case Root(_) => ByTenant
    case First(x) => FirstOwners(x)
    case Second(x) => SecondOwners(x)
    case Third(x) => ThirdOwners(x)
    case Fourth(x) => FourthOwners(x)
    case DocumentPart(_) => AllOf([Owner("document_id", First(RequirementDocuments))])
    case RequirementPart(_) => AllOf([Owner("requirement_id", DocumentPart(Requirements))])
    case DesignPart(_) => AllOf([Owner("design_id", First(TestDesigns))])
    case OtherTable(_) => AllOf([])
  }

  /** The number of ownership steps to a root. */
  function Depth(t: Table): nat {
    match t
    case Root(_) => 0
    case First(_) => 1
    case Second(_) => 2
    case Third(_) => 3
    case Fourth(_) => 4
    case DocumentPart(_) => 2
    case RequirementPart(_) => 3
    case DesignPart(_) => 2
    case OtherTable(_) => 0
  }

  predicate IsScoped(t: Table) {
    !t.OtherTable?
  }

  /** References to these tables are validated; those to the remaining roots are not. */
  predicate IsChecked(t: Table) {
    IsScoped(t) && t != Root(Notifications) && t != Root(Drafts) && t != Root(AuditLogs)
  }

  /** The foreign keys and the NOT NULL columns of the tables. */
  datatype Keys = Keys(fks: Table -> seq<Fk<Table>>, required: Table -> set<Column>)

  function Application(keys: Keys, personal: (Table, int, int) -> bool): Schema<Table> {
    Schema(OwnedBy, keys.fks, IsScoped, IsChecked, t => OwnedBy(t).ByTenant?, Depth, keys.required, personal)
  }

  /** All owners lie closer to a root, and are covered themselves. */
  ghost predicate Descends(f: Filter<Table>, depth: nat) {
    && !f.ByTenant? && f.owners != []
    && forall o :: o in f.owners ==> Depth(o.parent) < depth && |o.column| > 2 && !o.parent.OtherTable?
  }

  lemma FirstDescends(t: FirstTable)
    ensures Descends(FirstOwners(t), 1)
  {
  }

  lemma SecondDescends(t: SecondTable)
    ensures Descends(SecondOwners(t), 2)
  {
  }

  lemma ThirdDescends(t: ThirdTable)
    ensures Descends(ThirdOwners(t), 3)
  {
  }

  lemma FourthParents(t: FourthTable, o: Owner<Table>)
    requires o in Owners(FourthOwners(t))
    ensures |o.column| > 2
    ensures || o.parent == Third(TestExecutions) || o.parent == RequirementPart(RequirementComments)
            || o.parent == DocumentPart(RequirementTargetComments) || o.parent == Second(TaskComments)
            || o.parent == DesignPart(TestDesignComments)
  {
  }

  lemma FourthDescends(t: FourthTable)
    ensures Descends(FourthOwners(t), 4)
  {
    forall o | o in FourthOwners(t).owners ensures Depth(o.parent) < 4 && |o.column| > 2 && !o.parent.OtherTable? {
      FourthParents(t, o);
    }
  }

  lemma OwnersAreShallower(t: Table)
    requires IsScoped(t) && !t.Root?
    ensures Descends(OwnedBy(t), Depth(t))
  {
    match t
    case First(x) => FirstDescends(x);
    case Second(x) => SecondDescends(x);
    case Third(x) => ThirdDescends(x);
    case Fourth(x) => FourthDescends(x);
    case _ =>
  }

  /** The real ownership table has no cycle and leads every covered table to a root. */
  lemma OwnershipIsAcyclic(keys: Keys, personal: (Table, int, int) -> bool)
    ensures WellFormed(Application(keys, personal))
  {
    forall t | IsScoped(t) && !t.Root? ensures Descends(OwnedBy(t), Depth(t)) {
      OwnersAreShallower(t);
    }
  }

  // The keys of the owner columns.

  const GRANTS := First(ArtifactPublicationGrants)

  const EVENTS := First(ArtifactPublicationEvents)

  const PUBLICATION_KEY := Fk(First(ArtifactPublications), [("project_id", "project_id"), ("publication_id", "id")])

  const PARTICIPATION_KEY :=
    Fk(First(ProjectGuestParticipations), [("project_id", "project_id"), ("participation_id", "id")])

  const GRANT_KEY := Fk(GRANTS, [("project_id", "project_id"), ("grant_id", "id")])

  const TO_PROJECT := Owner("project_id", Root(Projects))

  function DirectKeys(owners: seq<Owner<Table>>): (r: seq<Fk<Table>>)
    ensures forall o :: o in owners ==> Fk(o.parent, [(o.column, "id")]) in r
    ensures forall k :: k in r ==> exists o :: o in owners && k == Fk(o.parent, [(o.column, "id")])
  {
    if owners == [] then []
    else [Fk(owners[0].parent, [(owners[0].column, "id")])] + DirectKeys(owners[1..])
  }

  /** Grants and publication events name their project only together with something else of it; every
      other owner column has a key of its own. */
  function OwnerKeys(t: Table): seq<Fk<Table>> {
    if t == GRANTS then [PUBLICATION_KEY, PARTICIPATION_KEY]
    else if t == EVENTS then [PUBLICATION_KEY, PARTICIPATION_KEY, GRANT_KEY]
    else DirectKeys(Owners(OwnedBy(t)))
  }

  /** Which of the columns of these keys are NOT NULL: a grant's are all, of an event only the project. */
  function OwnerRequired(t: Table): set<Column> {
    if t == GRANTS then {"project_id", "publication_id", "participation_id"}
    else if t == First(McpAuthorizationRequests) || t == DocumentPart(RequirementChangeLogs) then {}
    else if OwnedBy(t).AllOf? then OwnerColumns(OwnedBy(t).owners)
    else {}
  }

  const KEYS := Keys(OwnerKeys, OwnerRequired)

  /** The tables have these keys, and perhaps others, and a grant always names its publication. */
  ghost predicate HasOwnerKeys(keys: Keys) {
    && (forall t, k :: k in OwnerKeys(t) ==> k in keys.fks(t))
    && "publication_id" in keys.required(GRANTS)
  }

  /** No key makes an event's project be looked up whatever else the event leaves empty. */
  ghost predicate EventsMayNameOnlyAProject(keys: Keys) {
    forall fk :: fk in keys.fks(EVENTS) && Uses(fk, "project_id") ==>
      exists part :: part in fk.parts && part.0 != "project_id" && part.0 !in keys.required(EVENTS)
  }

  const DELIVERIES := First(NotificationEmailDeliveries)

  const ATTEMPTS := Second(NotificationEmailAttempts)

  predicate IsMail(t: Table) {
    t == DELIVERIES || t == ATTEMPTS
  }

  /** The tables whose owner a row may name unseen, and those below them. */
  predicate IsOpen(t: Table) {
    IsMail(t) || t == EVENTS
  }

  /** Owners outside the open tables are checked tables outside the open tables. */
  ghost predicate KeepsOff(f: Filter<Table>) {
    forall o :: o in Owners(f) ==> IsChecked(o.parent) && !IsOpen(o.parent)
  }

  lemma FirstKeepsOff(t: FirstTable)
    requires t != NotificationEmailDeliveries
    ensures KeepsOff(FirstOwners(t))
  {
  }

  lemma SecondParents(t: SecondTable, o: Owner<Table>)
    requires t != NotificationEmailAttempts && o in Owners(SecondOwners(t))
    ensures o.parent == Root(Projects)
            || (o.parent.First? && o.parent.first != NotificationEmailDeliveries
                && o.parent.first != ArtifactPublicationEvents)
  {
  }

  lemma SecondKeepsOff(t: SecondTable)
    requires t != NotificationEmailAttempts
    ensures KeepsOff(SecondOwners(t))
  {
    forall o | o in Owners(SecondOwners(t)) ensures IsChecked(o.parent) && !IsOpen(o.parent) {
      SecondParents(t, o);
    }
  }

  lemma ThirdParents(t: ThirdTable, o: Owner<Table>)
    requires o in Owners(ThirdOwners(t))
    ensures || o.parent == First(Tasks) || o.parent.DocumentPart? || o.parent.DesignPart?
            || (o.parent.Second? && o.parent.second != NotificationEmailAttempts)
  {
  }

  lemma ThirdKeepsOff(t: ThirdTable)
    ensures KeepsOff(ThirdOwners(t))
  {
    forall o | o in Owners(ThirdOwners(t)) ensures IsChecked(o.parent) && !IsOpen(o.parent) {
      ThirdParents(t, o);
    }
  }

  lemma FourthKeepsOff(t: FourthTable)
    ensures KeepsOff(FourthOwners(t))
  {
    forall o | o in Owners(FourthOwners(t)) ensures IsChecked(o.parent) && !IsOpen(o.parent) {
      FourthParents(t, o);
    }
  }

  lemma NothingOpenAbove(t: Table)
    requires !IsMail(t)
    ensures KeepsOff(OwnedBy(t))
  {
    match t
    case First(x) => FirstKeepsOff(x);
    case Second(x) => SecondKeepsOff(x);
    case Third(x) => ThirdKeepsOff(x);
    case Fourth(x) => FourthKeepsOff(x);
    case _ =>
  }

  lemma ProjectOwners()
    ensures OwnedBy(First(ArtifactPublications)) == AllOf([TO_PROJECT])
    ensures OwnedBy(First(ProjectGuestParticipations)) == AllOf([TO_PROJECT])
    ensures OwnedBy(GRANTS) == AllOf([TO_PROJECT])
    ensures OwnedBy(EVENTS) == AllOf([TO_PROJECT])
  {
  }

  lemma ProjectIsShared(schema: Schema<Table>, q: Table)
    requires schema.filter == OwnedBy && schema.checked == IsChecked
    requires forall k :: k in OwnerKeys(q) ==> k in schema.fks(q)
    requires q == First(ArtifactPublications) || q == First(ProjectGuestParticipations)
    ensures Shares(schema, q, "project_id", Root(Projects))
  {
    ProjectOwners();
    assert TO_PROJECT in Owners(OwnedBy(q));
    assert Fk(Root(Projects), [("project_id", "id")]) in OwnerKeys(q);
  }

  lemma CompositeChecks(keys: Keys, personal: (Table, int, int) -> bool, t: Table, key: Fk<Table>)
    requires HasOwnerKeys(keys) && (t == GRANTS || t == EVENTS) && (key == PUBLICATION_KEY || key == PARTICIPATION_KEY)
    ensures ThroughKey(Application(keys, personal), t, TO_PROJECT, key)
  {
    ProjectIsShared(Application(keys, personal), key.parent);
    assert key in OwnerKeys(t);
    assert ("project_id", "project_id") == key.parts[0];
    assert ("project_id", "project_id") in key.parts;
  }

  lemma GrantIsChecked(keys: Keys, personal: (Table, int, int) -> bool)
    requires HasOwnerKeys(keys)
    ensures Checked(Application(keys, personal), GRANTS, TO_PROJECT)
  {
    CompositeChecks(keys, personal, GRANTS, PUBLICATION_KEY);
    assert NeverPartial(Application(keys, personal), GRANTS, TO_PROJECT, PUBLICATION_KEY);
  }

  /** Outside the open tables every owner is checked. */
  lemma OwnersAreChecked(keys: Keys, personal: (Table, int, int) -> bool, t: Table, o: Owner<Table>)
    requires HasOwnerKeys(keys) && !IsOpen(t) && o in Owners(OwnedBy(t))
    ensures Checked(Application(keys, personal), t, o)
  {
    if t == GRANTS {
      ProjectOwners();
      GrantIsChecked(keys, personal);
    } else {
      NothingOpenAbove(t);
      assert Fk(o.parent, [(o.column, "id")]) in OwnerKeys(t);
    }
  }

  lemma {:induction false} BackedOutsideOpen(keys: Keys, personal: (Table, int, int) -> bool, t: Table)
    requires WellFormed(Application(keys, personal)) && HasOwnerKeys(keys) && !IsOpen(t)
    ensures Backed(Application(keys, personal), t)
    decreases Depth(t)
  {
    var schema := Application(keys, personal);
    NothingOpenAbove(t);
    forall o | o in Owners(schema.filter(t)) ensures Checked(schema, t, o) && Backed(schema, o.parent) {
      OwnersAreChecked(keys, personal, t, o);
      assert schema.rank(o.parent) < schema.rank(t);
      BackedOutsideOpen(keys, personal, o.parent);
    }
  }

  /** The application's frame: outside the three open tables, an accepted flush of one tenant leaves
      every other tenant's scope exactly as it was. */
  lemma ApplicationFrame(keys: Keys, personal: (Table, int, int) -> bool, pre: Db<Table>,
                         batch: seq<Write<Table>>, post: Db<Table>, tenant: int, other: int, t: Table)
    requires HasOwnerKeys(keys) && IsScoped(t) && !IsOpen(t) && other != tenant
    requires Scenario(Application(keys, personal), pre, batch, post, tenant)
    requires NotNull(Application(keys, personal), batch)
    ensures forall id :: InScope(Application(keys, personal), post, other, None, t, id)
                         <==> InScope(Application(keys, personal), pre, other, None, t, id)
    ensures forall id :: InScope(Application(keys, personal), pre, other, None, t, id) ==>
                           id in post(t) && post(t)[id] == pre(t)[id]
  {
    var schema := Application(keys, personal);
    BackedOutsideOpen(keys, personal, t);
    BackedIsSafe(schema, t);
    SafeMeansSafeIn(schema, batch, t);
    FlushFrame(schema, pre, batch, post, tenant, other, t);
  }

  // Publication events.

  lemma EventIsVouched(keys: Keys, personal: (Table, int, int) -> bool, w: Write<Table>)
    requires HasOwnerKeys(keys) && w.table == EVENTS && "project_id" in w.row.cells
    requires "publication_id" in w.row.cells || "participation_id" in w.row.cells
    ensures Vouched(Application(keys, personal), w, TO_PROJECT)
  {
    var key := if "publication_id" in w.row.cells then PUBLICATION_KEY else PARTICIPATION_KEY;
    CompositeChecks(keys, personal, EVENTS, key);
    assert Complete(key, w.row);
  }

  /** The frame holds for events too when every event the flush writes names a publication or a
      participation besides its project. */
  lemma EventsFrame(keys: Keys, personal: (Table, int, int) -> bool, pre: Db<Table>, batch: seq<Write<Table>>,
                    post: Db<Table>, tenant: int, other: int)
    requires HasOwnerKeys(keys) && other != tenant && Scenario(Application(keys, personal), pre, batch, post, tenant)
    requires forall i :: 0 <= i < |batch| && batch[i].table == EVENTS && batch[i].change != Deleted ==>
                           "publication_id" in batch[i].row.cells || "participation_id" in batch[i].row.cells
    ensures forall id :: InScope(Application(keys, personal), post, other, None, EVENTS, id)
                         <==> InScope(Application(keys, personal), pre, other, None, EVENTS, id)
  {
    var schema := Application(keys, personal);
    ProjectOwners();
    forall i | 0 <= i < |batch| && batch[i].table == EVENTS && batch[i].change != Deleted
      ensures RowWatched(schema, batch[i])
    {
      assert TO_PROJECT in schema.filter(EVENTS).owners;
      if "project_id" in batch[i].row.cells {
        EventIsVouched(keys, personal, batch[i]);
      }
    }
    assert SafeIn(schema, batch, Root(Projects));
    FlushFrame(schema, pre, batch, post, tenant, other, EVENTS);
  }

  lemma EventsAreUnsafe(keys: Keys, personal: (Table, int, int) -> bool)
    requires WellFormed(Application(keys, personal)) && EventsMayNameOnlyAProject(keys)
    ensures !Safe(Application(keys, personal), EVENTS)
  {
    var schema := Application(keys, personal);
    ProjectOwners();
    if Direct(schema, EVENTS, TO_PROJECT) {
      assert ("project_id", "id") in Fk(Root(Projects), [("project_id", "id")]).parts;
      assert Uses(Fk(Root(Projects), [("project_id", "id")]), "project_id");
    }
    forall fk | ThroughKey(schema, EVENTS, TO_PROJECT, fk) ensures !NeverPartial(schema, EVENTS, TO_PROJECT, fk) {
      assert Uses(fk, "project_id");
    }
  }

  // The mail tables.

  lemma MailOwners()
    ensures OwnedBy(DELIVERIES) == AllOf([Owner("notification_id", Root(Notifications))])
    ensures OwnedBy(ATTEMPTS) == AllOf([Owner("delivery_id", DELIVERIES)])
  {
  }

  lemma NotificationsAreUnchecked(schema: Schema<Table>, o: Owner<Table>)
    requires schema.filter == OwnedBy && schema.checked == IsChecked && o.parent == Root(Notifications)
    ensures !Checked(schema, DELIVERIES, o)
  {
  }

  lemma MailIsUnsafe(keys: Keys, personal: (Table, int, int) -> bool, t: Table)
    requires WellFormed(Application(keys, personal)) && IsMail(t)
    ensures !Safe(Application(keys, personal), t)
  {
    var schema := Application(keys, personal);
    MailOwners();
    forall o | o in Owners(schema.filter(DELIVERIES)) ensures !Checked(schema, DELIVERIES, o) {
      NotificationsAreUnchecked(schema, o);
    }
    assert !Safe(schema, DELIVERIES);
    assert Owner("delivery_id", DELIVERIES) in Owners(schema.filter(ATTEMPTS));
  }

  /** The two mail tables and the publication events are exactly the exceptions. */
  lemma ApplicationFrameIsExact(keys: Keys, personal: (Table, int, int) -> bool, t: Table)
    requires WellKeyed(Application(keys, personal)) && HasOwnerKeys(keys) && EventsMayNameOnlyAProject(keys)
    requires IsScoped(t)
    ensures WellFormed(Application(keys, personal))
    ensures Protected(Application(keys, personal), t) <==> !IsMail(t) && t != EVENTS
  {
    OwnershipIsAcyclic(keys, personal);
    FrameIsExact(Application(keys, personal), t);
    if IsMail(t) {
      MailIsUnsafe(keys, personal, t);
    } else if t == EVENTS {
      EventsAreUnsafe(keys, personal);
    } else {
      BackedOutsideOpen(keys, personal, t);
      BackedIsSafe(Application(keys, personal), t);
    }
  }

  // The hypotheses hold of the owner columns' own keys.

  lemma OwnerKeysFit()
    ensures HasOwnerKeys(KEYS) && EventsMayNameOnlyAProject(KEYS)
  {
    ProjectOwners();
    forall fk | fk in OwnerKeys(EVENTS)
      ensures exists part :: part in fk.parts && part.0 != "project_id" && part.0 !in OwnerRequired(EVENTS)
    {
      EventKeyNamesMore(fk);
    }
  }

  lemma EventKeyNamesMore(fk: Fk<Table>)
    requires fk in OwnerKeys(EVENTS)
    ensures fk.parts[1] in fk.parts && fk.parts[1].0 != "project_id" && fk.parts[1].0 !in OwnerRequired(EVENTS)
    ensures fk.parts[1].0 !in Needed(Application(KEYS, (t, id, user) => true), EVENTS)
  {
    ProjectOwners();
    if fk == GRANT_KEY {
      assert fk.parts[1].0 == "grant_id" && |"grant_id"| < |"project_id"|;
    } else {
      assert |fk.parts[1].0| > |"project_id"|;
    }
  }

  lemma OwnerKeysAreWellKeyed(personal: (Table, int, int) -> bool)
    ensures WellKeyed(Application(KEYS, personal))
  {
    var schema := Application(KEYS, personal);
    forall t | IsScoped(t) ensures WellOwned(schema, t) && KeysFit(schema, t) {
      OwnerKeysAreWellOwned(personal, t);
      forall fk | fk in OwnerKeys(t) && IsChecked(fk.parent) && FilledBy(fk, Needed(schema, t))
        ensures KeyFits(schema, t, fk)
      {
        KeyChecksAnOwner(personal, t, fk);
      }
    }
  }

  lemma OwnerKeysAreWellOwned(personal: (Table, int, int) -> bool, t: Table)
    requires IsScoped(t)
    ensures WellOwned(Application(KEYS, personal), t)
  {
    OwnersAreDistinct(t);
    KeyIsNotRequired(t);
    if OwnedBy(t).AnyOf? {
      AnyOwnerMayBeMissing(t);
    }
  }

  lemma AnyOwnerMayBeMissing(t: Table)
    requires OwnedBy(t).AnyOf?
    ensures OwnerRequired(t) == {}
  {
    ProjectOwners();
  }

  lemma KeyIsNotRequired(t: Table)
    requires IsScoped(t)
    ensures "id" !in OwnerRequired(t)
  {
    if t == GRANTS {
      assert |"project_id"| > 2 && |"publication_id"| > 2 && |"participation_id"| > 2;
    } else if !t.Root? {
      OwnersAreShallower(t);
    }
  }

  lemma KeyChecksAnOwner(personal: (Table, int, int) -> bool, t: Table, fk: Fk<Table>)
    requires fk in OwnerKeys(t) && IsChecked(fk.parent) && FilledBy(fk, Needed(Application(KEYS, personal), t))
    ensures exists o :: o in Owners(OwnedBy(t)) && Checked(Application(KEYS, personal), t, o) && Uses(fk, o.column)
  {
    if t == GRANTS {
      GrantKeyChecks(personal, fk);
    } else if t == EVENTS {
      EventKeyNamesMore(fk);
    } else {
      DirectKeyChecks(personal, t, fk, Owners(OwnedBy(t)));
    }
  }

  lemma GrantKeyChecks(personal: (Table, int, int) -> bool, fk: Fk<Table>)
    requires fk in [PUBLICATION_KEY, PARTICIPATION_KEY]
    ensures TO_PROJECT in Owners(OwnedBy(GRANTS)) && Checked(Application(KEYS, personal), GRANTS, TO_PROJECT)
    ensures Uses(fk, TO_PROJECT.column)
  {
    ProjectOwners();
    OwnerKeysFit();
    GrantIsChecked(KEYS, personal);
    assert fk.parts[0] in fk.parts && fk.parts[0].0 == "project_id";
  }

  lemma DirectKeyChecks(personal: (Table, int, int) -> bool, t: Table, fk: Fk<Table>, owners: seq<Owner<Table>>)
    requires fk in DirectKeys(owners) && OwnerKeys(t) == DirectKeys(owners) && IsChecked(fk.parent)
    ensures exists o :: o in owners && Checked(Application(KEYS, personal), t, o) && Uses(fk, o.column)
  {
    var o :| o in owners && fk == Fk(o.parent, [(o.column, "id")]);
    assert (o.column, "id") in fk.parts;
    assert Uses(fk, o.column);
    assert Direct(Application(KEYS, personal), t, o);
  }

  ghost predicate Distinct(f: Filter<Table>) {
    && (f.AnyOf? ==> f.owners != [])
    && forall o, p :: o in Owners(f) && p in Owners(f) && o.column == p.column ==> o == p
  }

  lemma OwnersAreDistinct(t: Table)
    requires IsScoped(t)
    ensures Distinct(OwnedBy(t))
  {
    match t
    case First(x) => FirstDistinct(x);
    case Second(x) => SecondDistinct(x);
    case Third(x) => ThirdDistinct(x);
    case Fourth(x) => FourthDistinct(x);
    case _ =>
  }

  lemma FirstDistinct(t: FirstTable)
    ensures Distinct(FirstOwners(t))
  {
  }

  lemma SecondDistinct(t: SecondTable)
    ensures Distinct(SecondOwners(t))
  {
  }

  lemma ThirdDistinct(t: ThirdTable)
    ensures Distinct(ThirdOwners(t))
  {
  }

  lemma FourthDistinct(t: FourthTable)
    ensures Distinct(FourthOwners(t))
  {
  }

  // From any state.

  /** Whatever the tables hold, a flush of one tenant may add a delivery to any notification of
      another: the table `notifications` is not checked. */
  lemma UncheckedOwnerBreaksTheFrame(personal: (Table, int, int) -> bool, pre: Db<Table>, tenant: int, other: int,
                                     notification: int, id: int)
    requires OneOwner(Application(KEYS, personal), pre) && other != tenant && id !in pre(DELIVERIES)
    requires notification in pre(Root(Notifications)) && pre(Root(Notifications))[notification].tenant == Some(other)
    ensures
      var schema, row := Application(KEYS, personal), Row(None, map["notification_id" := notification]);
      var batch, post := [Write(New, DELIVERIES, id, None, row)], Added(pre, DELIVERIES, id, row);
      && WellFormed(schema) && Scenario(schema, pre, batch, post, tenant) && NotNull(schema, batch)
      && !InScope(schema, pre, other, None, DELIVERIES, id)
      && InScope(schema, post, other, None, DELIVERIES, id)
  {
    var schema, o := Application(KEYS, personal), Owner("notification_id", Root(Notifications));
    OwnershipIsAcyclic(KEYS, personal);
    MailOwners();
    OwnersAreShallower(DELIVERIES);
    assert o in OwnedBy(DELIVERIES).owners;
    assert OwnerKeys(DELIVERIES) == [Fk(Root(Notifications), [("notification_id", "id")])];
    NewRowIntrudes(schema, pre, tenant, other, DELIVERIES, o, Row(None, map["notification_id" := notification]), id);
  }

  /** Whatever the tables hold, a flush of one tenant may add an event to any project of another: with
      publication, participation and grant left empty, none of its keys is looked up. */
  lemma BareEventBreaksTheFrame(personal: (Table, int, int) -> bool, pre: Db<Table>, tenant: int, other: int,
                                project: int, id: int)
    requires OneOwner(Application(KEYS, personal), pre) && other != tenant && id !in pre(EVENTS)
    requires project in pre(Root(Projects)) && pre(Root(Projects))[project].tenant == Some(other)
    ensures
      var schema, row := Application(KEYS, personal), Row(None, map["project_id" := project]);
      var batch, post := [Write(New, EVENTS, id, None, row)], Added(pre, EVENTS, id, row);
      && WellFormed(schema) && Scenario(schema, pre, batch, post, tenant) && NotNull(schema, batch)
      && !InScope(schema, pre, other, None, EVENTS, id)
      && InScope(schema, post, other, None, EVENTS, id)
  {
    var schema, row := Application(KEYS, personal), Row(None, map["project_id" := project]);
    OwnershipIsAcyclic(KEYS, personal);
    ProjectOwners();
    OwnersAreShallower(EVENTS);
    assert TO_PROJECT in OwnedBy(EVENTS).owners;
    forall fk | fk in OwnerKeys(EVENTS) ensures !Complete(fk, row) {
      EventKeyNamesMore(fk);
    }
    NewRowIntrudes(schema, pre, tenant, other, EVENTS, TO_PROJECT, row, id);
  }

  // What is looked up, and what must be named.

  /** A filled key whose value is neither the row's own nor that of a new row is looked up, unless it
      leads to notifications, drafts, audit logs or a table without a tenant. */
  lemma WhatIsLookedUp(keys: Keys, personal: (Table, int, int) -> bool, batch: seq<Write<Table>>, w: Write<Table>,
                       fk: Fk<Table>, local: Column, column: Column)
    requires fk in keys.fks(w.table) && (local, column) in fk.parts
    requires forall part :: part in fk.parts ==> part.0 in w.row.cells
    requires fk.parent != w.table || w.row.cells[local] != w.id
    requires forall i | 0 <= i < |batch| && batch[i].change == New && batch[i].table == fk.parent ::
               column in batch[i].row.cells ==> batch[i].row.cells[column] != w.row.cells[local]
    ensures Need(fk.parent, column, w.row.cells[local]) in Needs(Application(keys, personal), batch, w) <==>
              !fk.parent.OtherTable? && fk.parent !in {Root(Notifications), Root(Drafts), Root(AuditLogs)}
  {
    var schema, value := Application(keys, personal), w.row.cells[local];
    LookedUpExactlyWhen(schema, batch, w, fk.parent, column, value);
    if schema.checked(fk.parent) {
      assert LooksUp(schema, batch, w, fk, local, fk.parent, column, value);
    }
  }

  /** Every owner column of a written row is filled, except those of connection requests and of the
      requirement change log. */
  lemma OwnersAreNamed(personal: (Table, int, int) -> bool, batch: seq<Write<Table>>, i: nat, o: Owner<Table>)
    requires NotNull(Application(KEYS, personal), batch) && i < |batch| && batch[i].change != Deleted
    requires OwnedBy(batch[i].table).AllOf? && o in OwnedBy(batch[i].table).owners
    ensures batch[i].table !in {First(McpAuthorizationRequests), DocumentPart(RequirementChangeLogs)} ==>
              o.column in batch[i].row.cells
    ensures OwnerRequired(First(McpAuthorizationRequests)) == OwnerRequired(DocumentPart(RequirementChangeLogs)) == {}
  {
  }

  // Statements.

  /** A filter added to every statement that reads or writes the table. */
  datatype Criterion = Criterion(table: Table, tenant: int, user: Option<int>)

  /** Project lists, memberships and audit logs are filtered by tenant only. */
  function CriterionFor(t: Table, tenant: int, user: Option<int>): Criterion {
    Criterion(t, tenant, if t == Root(Projects) || t == First(ProjectMembers) || t == Root(AuditLogs) then None else user)
  }

  function Criteria(models: seq<Table>, tenant: int, user: Option<int>): (r: seq<Criterion>)
    ensures |r| == |models|
    ensures forall i :: 0 <= i < |r| ==> r[i] == CriterionFor(models[i], tenant, user)
  {
    seq(|models|, i requires 0 <= i < |models| => CriterionFor(models[i], tenant, user))
  }

  /** The user narrows every table but three, and the tenant every one. */
  lemma WhomAStatementShows(models: seq<Table>, tenant: int, user: int, i: nat)
    requires i < |models|
    ensures
      var c := Criteria(models, tenant, Some(user))[i];
      && c.table == models[i] && c.tenant == tenant
      && (models[i] in {Root(Projects), First(ProjectMembers), Root(AuditLogs)} ==> c.user == None)
      && (models[i] !in {Root(Projects), First(ProjectMembers), Root(AuditLogs)} ==> c.user == Some(user))
    ensures Criteria(models, tenant, None)[i] == Criterion(models[i], tenant, None)
  {
  }

  class StatementScope {
    const models: seq<Table>
    var tenant: Option<int>
    var user: Option<int>
    var cached: Option<((int, Option<int>), seq<Criterion>)>

    /** The cached criteria belong to the context they were built for. */
    ghost predicate Valid()
      reads this
    {
      cached.Some? ==> cached.value.1 == Criteria(models, cached.value.0.0, cached.value.0.1)
    }

    constructor (models: seq<Table>)
      ensures Valid() && this.models == models && tenant == None && user == None
    {
      this.models := models;
      tenant, user, cached := None, None, None;
    }

    method Switch(tenant: Option<int>, user: Option<int>)
      requires Valid()
      modifies this
      ensures Valid() && this.tenant == tenant && this.user == user
    {
      this.tenant, this.user := tenant, user;
    }

    /** Whatever was cached before, a statement gets the criteria of the current context. */
    method Scope(scopable: bool) returns (added: seq<Criterion>)
      requires Valid()
      modifies this
      ensures Valid() && tenant == old(tenant) && user == old(user)
      ensures added == if tenant.None? || !scopable then [] else Criteria(models, tenant.value, user)
    {
      if tenant.None? || !scopable {
        return [];
      }
      var context := (tenant.value, user);
      if cached.Some? && cached.value.0 == context {
        return cached.value.1;
      }
      added := [];
      for i := 0 to |models|
        invariant added == Criteria(models, tenant.value, user)[..i]
        invariant unchanged(this)
      {
        added := added + [CriterionFor(models[i], tenant.value, user)];
      }
      cached := Some((context, added));
    }
  }
}
