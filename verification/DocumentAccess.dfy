/** Document authorization: grants by user, role, api key and group, then policies; one
    document at a time, or a whole list against batch-loaded grants and labels. */
module DocumentAccess {
  import opened Wrappers
  import opened Text
  import opened JsonValues
  import opened Filtering
  import opened Evaluator
  import opened Abac

  datatype Principal = Principal(subjectId: string, tenant: string, role: string, apiKeyId: string, authMethod: string)

  datatype Document = Document(id: string, tenant: string, attributes: Json)

  datatype GranteeType = User | Role | ApiKey | Group | OtherGrantee(name: string)

  datatype Grant = Grant(
    tenant: string, documentId: string, granteeType: GranteeType, granteeId: string, permission: string,
    expiresAt: Option<int>)

  datatype Label = Label(tenant: string, documentId: string, key: string, value: string)

  datatype Settings = Settings(abacEnabled: bool, defaultDeny: bool, adminBypass: bool)

  /** What the database holds at one instant, for one principal; policies are in their
      ORDER BY order. */
  datatype Snapshot = Snapshot(
    now: int, settings: Settings, grants: seq<Grant>, labels: seq<Label>, policies: seq<Policy>,
    groups: seq<string>, plan: Option<string>)

  datatype Attributes = Attributes(role: string, plan: Option<string>, groups: seq<string>)

  /** What conditions can refer to. */
  datatype Context = Context(
    principal: Principal, attributes: Attributes, document: Document, labels: map<string, string>, request: Json, now: int)

  type Resolver = Context -> Comparator

  // ------------------------------------------------------------------- roles

  predicate SupportedRole(role: string) {
    role == "reader" || role == "editor" || role == "admin"
  }

  function Lower(c: char): char {
    if 'A' <= c <= 'Z' then (c as int - 'A' as int + 'a' as int) as char else c
  }

  function Normalized(role: string): string {
    var stripped := Trim(role, PythonSpace);
    seq(|stripped|, i requires 0 <= i < |stripped| => Lower(stripped[i]))
  }

  /** None stands for the ValueError of an unsupported role. */
  function LoadAttributes(s: Snapshot, principal: Principal): Option<Attributes> {
    var role := Normalized(principal.role);
    if SupportedRole(role) then Some(Attributes(role, s.plan, s.groups)) else None
  }

  // ------------------------------------------------------------------- grants

  /** The permissions that satisfy an action. */
  function Satisfying(action: string): set<string> {
    if action == "read" then {"read", "write", "delete", "reindex", "owner"}
    else if action == "write" then {"write", "delete", "owner"}
    else if action == "delete" then {"delete", "owner"}
    else if action == "reindex" then {"reindex", "owner"}
    else {action}
  }

  predicate NamesPrincipal(grant: Grant, principal: Principal, groups: seq<string>) {
    match grant.granteeType
    case User => grant.granteeId == principal.subjectId
    case Role => grant.granteeId == principal.role
    case ApiKey => principal.authMethod == "api_key" && grant.granteeId == principal.apiKeyId
    case Group => grant.granteeId in groups
    case OtherGrantee(_) => false
  }

  /** The grant reaches the principal and has not expired. */
  predicate Applies(grant: Grant, principal: Principal, s: Snapshot) {
    && grant.tenant == principal.tenant
    && NamesPrincipal(grant, principal, s.groups)
    && (grant.expiresAt.None? || grant.expiresAt.value > s.now)
  }

  /** Some applicable grant gives this permission on this document. */
  predicate Granted(s: Snapshot, principal: Principal, documentId: string, permission: string) {
    exists i | 0 <= i < |s.grants| ::
      Applies(s.grants[i], principal, s) && s.grants[i].documentId == documentId && s.grants[i].permission == permission
  }

  predicate Bypasses(s: Snapshot, principal: Principal) {
    s.settings.adminBypass && principal.role == "admin"
  }

  /** An applicable grant on the document satisfies the action, or none is needed. */
  predicate MayAct(s: Snapshot, principal: Principal, documentId: string, action: string) {
    Bypasses(s, principal) || exists permission <- Satisfying(action) :: Granted(s, principal, documentId, permission)
  }

  function OnDocument(s: Snapshot, principal: Principal, documentId: string): Grant -> bool {
    (grant: Grant) => grant.documentId == documentId && Applies(grant, principal, s)
  }

  method EvaluateDocumentPermissions(s: Snapshot, principal: Principal, documentId: string, action: string)
    returns (allowed: bool)
    ensures allowed == MayAct(s, principal, documentId, action)
  {
    if Bypasses(s, principal) {
      return true;
    }
    var satisfying := Satisfying(action);
    var rows := Keep(s.grants, OnDocument(s, principal, documentId));
    ghost var at := KeepIsSubsequence(s.grants, OnDocument(s, principal, documentId));
    for i := 0 to |rows|
      invariant forall j | 0 <= j < i :: rows[j].permission !in satisfying
    {
      if rows[i].permission in satisfying {
        assert s.grants[at[i]] == rows[i];
        assert Granted(s, principal, documentId, rows[i].permission);
        return true;
      }
    }
    NoGrantSatisfies(s, principal, documentId, action, rows, at);
    return false;
  }

  lemma GrantedIsPicked(s: Snapshot, principal: Principal, documentId: string, permission: string, rows: seq<Grant>,
                        at: seq<nat>) returns (k: nat)
    requires Picks(s.grants, OnDocument(s, principal, documentId), rows, at)
    requires Granted(s, principal, documentId, permission)
    ensures k < |rows| && rows[k].permission == permission
  {
    var i :| 0 <= i < |s.grants| && Applies(s.grants[i], principal, s) && s.grants[i].documentId == documentId
             && s.grants[i].permission == permission;
    assert i in at;
    k :| k < |at| && at[k] == i;
  }

  lemma NoGrantSatisfies(s: Snapshot, principal: Principal, documentId: string, action: string, rows: seq<Grant>, at: seq<nat>)
    requires Picks(s.grants, OnDocument(s, principal, documentId), rows, at)
    requires forall j | 0 <= j < |rows| :: rows[j].permission !in Satisfying(action)
    ensures forall permission <- Satisfying(action) :: !Granted(s, principal, documentId, permission)
  {
    forall permission | Granted(s, principal, documentId, permission) ensures permission !in Satisfying(action) {
      var k := GrantedIsPicked(s, principal, documentId, permission, rows, at);
    }
  }

  // ------------------------------------------------------------------- grants in a batch

  function OnDocuments(s: Snapshot, principal: Principal, ids: seq<string>): Grant -> bool {
    (grant: Grant) => grant.documentId in ids && Applies(grant, principal, s)
  }

  /** The map holds exactly the permissions granted by the given rows. */
  ghost predicate Gathers(permissions: map<string, set<string>>, rows: seq<Grant>) {
    && (forall id, permission | id in permissions && permission in permissions[id] :: Lists(rows, id, permission))
    && (forall i | 0 <= i < |rows| ::
          rows[i].documentId in permissions && rows[i].permission in permissions[rows[i].documentId])
  }

  predicate Lists(rows: seq<Grant>, id: string, permission: string) {
    exists i | 0 <= i < |rows| :: rows[i].documentId == id && rows[i].permission == permission
  }

  lemma GathersOneMore(permissions: map<string, set<string>>, rows: seq<Grant>, row: Grant)
    requires Gathers(permissions, rows)
    ensures var known := if row.documentId in permissions then permissions[row.documentId] else {};
            Gathers(permissions[row.documentId := known + {row.permission}], rows + [row])
  {
    var known := if row.documentId in permissions then permissions[row.documentId] else {};
    var more := permissions[row.documentId := known + {row.permission}];
    forall id, permission | id in more && permission in more[id] ensures Lists(rows + [row], id, permission) {
      if id in permissions && permission in permissions[id] {
        var i :| 0 <= i < |rows| && rows[i].documentId == id && rows[i].permission == permission;
        assert (rows + [row])[i] == rows[i];
      } else {
        assert (rows + [row])[|rows|] == row;
      }
    }
  }

  method LoadDocumentPermissions(s: Snapshot, principal: Principal, ids: seq<string>)
    returns (permissions: map<string, set<string>>)
    ensures Gathers(permissions, Keep(s.grants, OnDocuments(s, principal, ids)))
  {
    permissions := map[];
    var rows := Keep(s.grants, OnDocuments(s, principal, ids));
    for i := 0 to |rows|
      invariant Gathers(permissions, rows[..i])
    {
      GathersOneMore(permissions, rows[..i], rows[i]);
      assert rows[..i + 1] == rows[..i] + [rows[i]];
      var known := if rows[i].documentId in permissions then permissions[rows[i].documentId] else {};
      permissions := permissions[rows[i].documentId := known + {rows[i].permission}];
    }
    assert rows[..|rows|] == rows;
  }

  predicate DocumentAclAllows(permissions: Option<set<string>>, action: string) {
    permissions.Some? && permissions.value != {} && permissions.value * Satisfying(action) != {}
  }

  function PermissionsOf(permissions: map<string, set<string>>, id: string): Option<set<string>> {
    if id in permissions then Some(permissions[id]) else None
  }

  lemma GatheredIsGranted(s: Snapshot, principal: Principal, ids: seq<string>, permissions: map<string, set<string>>,
                          id: string, permission: string)
    requires Gathers(permissions, Keep(s.grants, OnDocuments(s, principal, ids))) && id in ids
    ensures (id in permissions && permission in permissions[id]) <==> Granted(s, principal, id, permission)
  {
    var rows := Keep(s.grants, OnDocuments(s, principal, ids));
    var at := KeepIsSubsequence(s.grants, OnDocuments(s, principal, ids));
    if id in permissions && permission in permissions[id] {
      assert Lists(rows, id, permission);
      var k :| 0 <= k < |rows| && rows[k].documentId == id && rows[k].permission == permission;
      assert s.grants[at[k]] == rows[k];
    }
    if Granted(s, principal, id, permission) {
      var i :| 0 <= i < |s.grants| && Applies(s.grants[i], principal, s) && s.grants[i].documentId == id
               && s.grants[i].permission == permission;
      assert i in at;
      var k :| 0 <= k < |at| && at[k] == i;
      assert rows[k] == s.grants[i];
    }
  }

  /** The batch check of a listed document agrees with the single check. */
  lemma BatchAclAgrees(s: Snapshot, principal: Principal, ids: seq<string>, permissions: map<string, set<string>>,
                       id: string, action: string)
    requires Gathers(permissions, Keep(s.grants, OnDocuments(s, principal, ids))) && id in ids
    ensures (Bypasses(s, principal) || DocumentAclAllows(PermissionsOf(permissions, id), action))
       <==> MayAct(s, principal, id, action)
  {
    forall permission
      ensures (id in permissions && permission in permissions[id]) <==> Granted(s, principal, id, permission)
    {
      GatheredIsGranted(s, principal, ids, permissions, id, permission);
    }
    if id in permissions && permissions[id] * Satisfying(action) != {} {
      var permission :| permission in permissions[id] * Satisfying(action);
      assert Granted(s, principal, id, permission);
    }
    if permission :| permission in Satisfying(action) && Granted(s, principal, id, permission) {
      assert permission in permissions[id] * Satisfying(action);
    }
  }

  // ------------------------------------------------------------------- labels

  predicate LabelSelected(entry: Label, tenant: string, ids: seq<string>) {
    entry.tenant == tenant && entry.documentId in ids
  }

  /** The labels of one document, a later row overriding an earlier one of its key. */
  function LabelsOf(labels: seq<Label>, tenant: string, id: string): map<string, string> {
    if labels == [] then map[]
    else
      var entry, known := Last(labels), LabelsOf(Front(labels), tenant, id);
      if entry.tenant == tenant && entry.documentId == id then known[entry.key := entry.value] else known
  }

  function LabelsIn(mapping: map<string, map<string, string>>, id: string): map<string, string> {
    if id in mapping then mapping[id] else map[]
  }

  /** The row labels this document of this tenant under this key. */
  predicate LabelsKey(entry: Label, tenant: string, id: string, key: string) {
    entry.tenant == tenant && entry.documentId == id && entry.key == key
  }

  /** A document's label of a key is the value of the last row for its tenant, itself and
      that key; without such a row it has none. */
  lemma {:induction false} LabelIsLastOfKey(labels: seq<Label>, tenant: string, id: string, key: string)
    ensures key in LabelsOf(labels, tenant, id) <==> exists i :: 0 <= i < |labels| && LabelsKey(labels[i], tenant, id, key)
    ensures forall i | 0 <= i < |labels| && LabelsKey(labels[i], tenant, id, key)
                       && (forall j | i < j < |labels| :: !LabelsKey(labels[j], tenant, id, key)) ::
              key in LabelsOf(labels, tenant, id) && LabelsOf(labels, tenant, id)[key] == labels[i].value
    decreases |labels|
  {
    if labels != [] {
      var n, front := |labels| - 1, Front(labels);
      LabelIsLastOfKey(front, tenant, id, key);
      assert forall i | 0 <= i < n :: front[i] == labels[i];
      assert (exists i :: 0 <= i < |labels| && LabelsKey(labels[i], tenant, id, key))
        <==> (exists i :: 0 <= i < n && LabelsKey(front[i], tenant, id, key)) || LabelsKey(labels[n], tenant, id, key);
    }
  }

  method LoadDocumentLabels(labels: seq<Label>, tenant: string, ids: seq<string>)
    returns (mapping: map<string, map<string, string>>)
    ensures forall id | id in ids :: LabelsIn(mapping, id) == LabelsOf(labels, tenant, id)
  {
    mapping := map[];
    for i := 0 to |labels|
      invariant forall id | id in ids :: LabelsIn(mapping, id) == LabelsOf(labels[..i], tenant, id)
    {
      assert Front(labels[..i + 1]) == labels[..i];
      var entry := labels[i];
      if LabelSelected(entry, tenant, ids) {
        mapping := mapping[entry.documentId := LabelsIn(mapping, entry.documentId)[entry.key := entry.value]];
      }
    }
    assert labels[..|labels|] == labels;
  }

  // ------------------------------------------------------------------- the full decision

  datatype Denial = TenantMismatch | AclDenied | PolicyDenied(reason: Reason)

  datatype Authorization = Permitted | Denied(why: Denial) | UnsupportedRole

  function ContextOf(s: Snapshot, principal: Principal, attributes: Attributes, document: Document, request: Json): Context {
    Context(principal, attributes, document, LabelsOf(s.labels, document.tenant, document.id), request, s.now)
  }

  predicate Reaches(policy: Policy, tenant: string) {
    policy.enabled && (policy.tenant == None || policy.tenant == Some(tenant))
  }

  /** The decision of the tenant's own and the global policies. */
  function PolicyDecision(s: Snapshot, tenant: string, query: Query): Decision {
    if !s.settings.abacEnabled then Decision(true, AbacDisabled, None, [])
    else Resolve(Keep(s.policies, (policy: Policy) => Reaches(policy, tenant)), query, false, s.settings.defaultDeny)
  }

  method EvaluatePolicies(s: Snapshot, tenant: string, query: Query) returns (decision: Decision)
    ensures decision == PolicyDecision(s, tenant, query)
  {
    if !s.settings.abacEnabled {
      return Decision(true, AbacDisabled, None, []);
    }
    var policies := Keep(s.policies, (policy: Policy) => Reaches(policy, tenant));
    decision := EvaluatePolicySet(policies, query, false, s.settings.defaultDeny);
  }

  function DocumentQuery(action: string, context: Context, resolver: Resolver): Query {
    Query("document", action, resolver(context))
  }

  /** Tenant, then grants, then role, then policies: the first that objects decides. */
  function Authorize(s: Snapshot, principal: Principal, document: Document, action: string, request: Json, resolver: Resolver)
    : Authorization
  {
    if document.tenant != principal.tenant then Denied(TenantMismatch)
    else if !MayAct(s, principal, document.id, action) then Denied(AclDenied)
    else
      match LoadAttributes(s, principal)
      case None => UnsupportedRole
      case Some(attributes) =>
        var context := ContextOf(s, principal, attributes, document, request);
        var decision := PolicyDecision(s, principal.tenant, DocumentQuery(action, context, resolver));
        if decision.allowed then Permitted else Denied(PolicyDenied(decision.reason))
  }

  method AuthorizeDocumentAction(s: Snapshot, principal: Principal, document: Document, action: string, request: Json,
                                 resolver: Resolver)
    returns (r: Authorization)
    ensures r == Authorize(s, principal, document, action, request, resolver)
  {
    if document.tenant != principal.tenant {
      return Denied(TenantMismatch);
    }
    var granted := EvaluateDocumentPermissions(s, principal, document.id, action);
    if !granted && !Bypasses(s, principal) {
      return Denied(AclDenied);
    }
    var attributes := LoadAttributes(s, principal);
    if attributes.None? {
      return UnsupportedRole;
    }
    var labels := LoadDocumentLabels(s.labels, document.tenant, [document.id]);
    assert document.id in [document.id];
    var context := Context(principal, attributes.value, document, LabelsIn(labels, document.id), request, s.now);
    var decision := EvaluatePolicies(s, principal.tenant, DocumentQuery(action, context, resolver));
    if !decision.allowed {
      return Denied(PolicyDenied(decision.reason));
    }
    return Permitted;
  }

  // ------------------------------------------------------------------- filtering a list

  /** Single authorization as a test on documents. */
  function MayUse(s: Snapshot, principal: Principal, action: string, request: Json, resolver: Resolver): Document -> bool {
    document => Authorize(s, principal, document, action, request, resolver) == Permitted
  }

  method IdsOf(documents: seq<Document>) returns (ids: seq<string>)
    ensures |ids| == |documents| && forall i | 0 <= i < |ids| :: ids[i] == documents[i].id
  {
    ids := seq(|documents|, i requires 0 <= i < |documents| => documents[i].id);
  }

  /** The check of one listed document against what was loaded for the batch. */
  method BatchCheck(s: Snapshot, principal: Principal, attributes: Attributes, document: Document, action: string,
                    request: Json, resolver: Resolver, ids: seq<string>, permissions: map<string, set<string>>,
                    labels: map<string, map<string, string>>)
    returns (kept: bool)
    requires LoadAttributes(s, principal) == Some(attributes) && document.id in ids
    requires Gathers(permissions, Keep(s.grants, OnDocuments(s, principal, ids)))
    requires LabelsIn(labels, document.id) == LabelsOf(s.labels, principal.tenant, document.id)
    ensures kept == MayUse(s, principal, action, request, resolver)(document)
  {
    if document.tenant != principal.tenant {
      return false;
    }
    BatchAclAgrees(s, principal, ids, permissions, document.id, action);
    var aclAllowed := if Bypasses(s, principal) then true
                      else DocumentAclAllows(PermissionsOf(permissions, document.id), action);
    if !aclAllowed {
      return false;
    }
    var context := Context(principal, attributes, document, LabelsIn(labels, document.id), request, s.now);
    var decision := EvaluatePolicies(s, principal.tenant, DocumentQuery(action, context, resolver));
    return decision.allowed;
  }

  lemma UnsupportedRoleIsNeverPermitted(s: Snapshot, principal: Principal, documents: seq<Document>, action: string,
                                        request: Json, resolver: Resolver)
    requires LoadAttributes(s, principal).None?
    ensures forall i | 0 <= i < |documents| ::
              Authorize(s, principal, documents[i], action, request, resolver) != Permitted
  {
  }

  /** On one snapshot the documents kept are, in order, exactly those that single
      authorization permits, and no other list is.  The batch fails only for an unsupported
      role, when none of its documents would be permitted singly. */
  method FilterDocuments(s: Snapshot, principal: Principal, documents: seq<Document>, action: string, request: Json,
                         resolver: Resolver)
    returns (filtered: Option<seq<Document>>)
    ensures filtered.Some? ==>
              && (forall document :: document in filtered.value <==>
                    document in documents && Authorize(s, principal, document, action, request, resolver) == Permitted)
              && (exists at :: Picks(documents, MayUse(s, principal, action, request, resolver), filtered.value, at))
              && filtered.value == Keep(documents, MayUse(s, principal, action, request, resolver))
              && (forall other, at | Picks(documents, MayUse(s, principal, action, request, resolver), other, at) ::
                    other == filtered.value)
    ensures filtered.None? <==> documents != [] && LoadAttributes(s, principal).None?
    ensures filtered.None? ==>
              forall i | 0 <= i < |documents| ::
                Authorize(s, principal, documents[i], action, request, resolver) != Permitted
  {
    ghost var may := MayUse(s, principal, action, request, resolver);
    ghost var places := KeepIsSubsequence(documents, may);
    forall other, at | Picks(documents, may, other, at) ensures other == Keep(documents, may) {
      PicksAreKept(documents, may, other, at);
    }
    if |documents| == 0 {
      return Some([]);
    }
    var attributes := LoadAttributes(s, principal);
    if attributes.None? {
      UnsupportedRoleIsNeverPermitted(s, principal, documents, action, request, resolver);
      return None;
    }
    var kept := CheckEach(s, principal, attributes.value, documents, action, request, resolver);
    return Some(kept);
  }

  method CheckEach(s: Snapshot, principal: Principal, attributes: Attributes, documents: seq<Document>, action: string,
                   request: Json, resolver: Resolver)
    returns (kept: seq<Document>)
    requires LoadAttributes(s, principal) == Some(attributes)
    ensures kept == Keep(documents, MayUse(s, principal, action, request, resolver))
  {
    var ids := IdsOf(documents);
    var labels := LoadDocumentLabels(s.labels, principal.tenant, ids);
    var permissions := LoadDocumentPermissions(s, principal, ids);
    kept := [];
    for i := 0 to |documents|
      invariant kept == Keep(documents[..i], MayUse(s, principal, action, request, resolver))
    {
      assert ids[i] == documents[i].id;
      KeepStep(documents, i, MayUse(s, principal, action, request, resolver));
      var keep := BatchCheck(s, principal, attributes, documents[i], action, request, resolver, ids, permissions, labels);
      if keep {
        kept := kept + [documents[i]];
      }
    }
    assert documents[..|documents|] == documents;
  }

  // ------------------------------------------------------------------- what being permitted means

  /** The question put to the policies about this document. */
  function QueryAbout(s: Snapshot, principal: Principal, document: Document, action: string, request: Json, resolver: Resolver)
    : Query
    requires LoadAttributes(s, principal).Some?
  {
    DocumentQuery(action, ContextOf(s, principal, LoadAttributes(s, principal).value, document, request), resolver)
  }

  lemma ReachingDenyIsConsulted(policies: seq<Policy>, tenant: string, i: nat, query: Query)
    requires i < |policies| && Reaches(policies[i], tenant) && IsConsulted(policies[i], Deny, query)
    requires AllQuiet(Consulted(Keep(policies, (policy: Policy) => Reaches(policy, tenant)), Deny, query), query)
    ensures OutcomeOf(policies[i], query) == Ok(false)
  {
    var reaching := Keep(policies, (policy: Policy) => Reaches(policy, tenant));
    var at := KeepIsSubsequence(policies, (policy: Policy) => Reaches(policy, tenant));
    assert i in at;
    var k :| 0 <= k < |at| && at[k] == i;
    assert reaching[k] == policies[i];
    var of := KeepIsSubsequence(reaching, Asking(Deny, query));
    assert Asking(Deny, query)(reaching[k]) && k in of;
    var m :| 0 <= m < |of| && of[m] == k;
    assert OutcomeOf(Consulted(reaching, Deny, query)[m], query) == Ok(false);
  }

  /** Policy i is a deny policy that the question reaches. */
  predicate DenyInReach(s: Snapshot, tenant: string, query: Query, i: nat) {
    && s.settings.abacEnabled && i < |s.policies|
    && Reaches(s.policies[i], tenant) && IsConsulted(s.policies[i], Deny, query)
  }

  /** Whoever is permitted is of the document's tenant, holds an unexpired grant that
      satisfies the action (or may do without), and is denied by no policy in reach. */
  lemma PermittedMeans(s: Snapshot, principal: Principal, document: Document, action: string, request: Json, resolver: Resolver,
                       i: nat)
    requires Authorize(s, principal, document, action, request, resolver) == Permitted
    ensures document.tenant == principal.tenant && MayAct(s, principal, document.id, action)
    ensures LoadAttributes(s, principal).Some?
    ensures var query := QueryAbout(s, principal, document, action, request, resolver);
            DenyInReach(s, principal.tenant, query, i) ==> OutcomeOf(s.policies[i], query) == Ok(false)
  {
    var query := QueryAbout(s, principal, document, action, request, resolver);
    if DenyInReach(s, principal.tenant, query, i) {
      AllowedExactlyWhen(Keep(s.policies, (policy: Policy) => Reaches(policy, principal.tenant)), query, false,
                         s.settings.defaultDeny);
      ReachingDenyIsConsulted(s.policies, principal.tenant, i, query);
    }
  }

  // ------------------------------------------------------------------- who may do what

  /** What a permission is good for: the action of its own name, and the weaker ones. */
  predicate Confers(permission: string, action: string) {
    || permission == action
    || (permission == "owner" && action in {"read", "write", "delete", "reindex"})
    || (permission == "delete" && action in {"write", "read"})
    || (permission in {"write", "reindex"} && action == "read")
  }

  /** The grant is for this tenant and document, is made to the user, their role, their group
      or the api key they came with, still runs, and is good for the action. */
  predicate Entitles(g: Grant, principal: Principal, s: Snapshot, documentId: string, action: string) {
    && g.tenant == principal.tenant && g.documentId == documentId && Confers(g.permission, action)
    && (g.expiresAt.Some? ==> s.now < g.expiresAt.value)
    && (|| (g.granteeType == User && g.granteeId == principal.subjectId)
        || (g.granteeType == Role && g.granteeId == principal.role)
        || (g.granteeType == Group && g.granteeId in s.groups)
        || (g.granteeType == ApiKey && principal.authMethod == "api_key" && g.granteeId == principal.apiKeyId))
  }

  predicate Entitled(s: Snapshot, principal: Principal, documentId: string, action: string) {
    exists i | 0 <= i < |s.grants| :: Entitles(s.grants[i], principal, s, documentId, action)
  }

  lemma SatisfyingAreConferring(permission: string, action: string)
    ensures permission in Satisfying(action) <==> Confers(permission, action)
  {
  }

  lemma MayActExactlyWhenEntitled(s: Snapshot, principal: Principal, documentId: string, action: string)
    ensures MayAct(s, principal, documentId, action)
       <==> (s.settings.adminBypass && principal.role == "admin") || Entitled(s, principal, documentId, action)
  {
    if permission :| permission in Satisfying(action) && Granted(s, principal, documentId, permission) {
      SatisfyingAreConferring(permission, action);
      var i :| 0 <= i < |s.grants| && Applies(s.grants[i], principal, s) && s.grants[i].documentId == documentId
               && s.grants[i].permission == permission;
      assert Entitles(s.grants[i], principal, s, documentId, action);
    }
    if Entitled(s, principal, documentId, action) {
      var i :| 0 <= i < |s.grants| && Entitles(s.grants[i], principal, s, documentId, action);
      SatisfyingAreConferring(s.grants[i].permission, action);
      assert Granted(s, principal, documentId, s.grants[i].permission);
    }
  }

  /** The name in any letter case. */
  predicate IsNamed(text: string, name: string) {
    && |text| == |name|
    && forall i | 0 <= i < |text| ::
         text[i] == name[i] || ('a' <= name[i] <= 'z' && text[i] as int == name[i] as int - 32)
  }

  /** The role is one of the three, in any letter case and between any white space. */
  predicate RoleRead(role: string) {
    var text := Trim(role, PythonSpace);
    IsNamed(text, "reader") || IsNamed(text, "editor") || IsNamed(text, "admin")
  }

  lemma NormalizedIsNamed(role: string, name: string)
    requires forall i | 0 <= i < |name| :: 'a' <= name[i] <= 'z'
    ensures Normalized(role) == name <==> IsNamed(Trim(role, PythonSpace), name)
  {
    var text := Trim(role, PythonSpace);
    if IsNamed(text, name) {
      assert Normalized(role) == name;
    }
    if Normalized(role) == name {
      forall i | 0 <= i < |text|
        ensures text[i] == name[i] || ('a' <= name[i] <= 'z' && text[i] as int == name[i] as int - 32)
      {
        assert Normalized(role)[i] == name[i];
      }
    }
  }

  lemma RoleReadExactly(s: Snapshot, principal: Principal)
    ensures LoadAttributes(s, principal).Some? <==> RoleRead(principal.role)
  {
    NormalizedIsNamed(principal.role, "reader");
    NormalizedIsNamed(principal.role, "editor");
    NormalizedIsNamed(principal.role, "admin");
  }

  /** Access to a document is refused for its tenant exactly when that is another's, and for
      want of a grant exactly when the tenant is the caller's and no grant entitles them,
      unless administrators may do without; then the role must be readable. */
  lemma RefusedExactlyWithoutGrant(s: Snapshot, principal: Principal, document: Document, action: string, request: Json,
                                   resolver: Resolver)
    ensures var r := Authorize(s, principal, document, action, request, resolver);
            var entitled := (s.settings.adminBypass && principal.role == "admin")
                            || Entitled(s, principal, document.id, action);
            && (r == Denied(TenantMismatch) <==> document.tenant != principal.tenant)
            && (r == Denied(AclDenied) <==> document.tenant == principal.tenant && !entitled)
            && (r == UnsupportedRole <==> document.tenant == principal.tenant && entitled && !RoleRead(principal.role))
  {
    MayActExactlyWhenEntitled(s, principal, document.id, action);
    RoleReadExactly(s, principal);
  }

  /** With a single grant of their own that runs, a caller is refused for want of a grant
      exactly when its permission is not good for the action: an owner may do everything
      listed, whoever may delete may write and read, whoever may write or reindex may read. */
  lemma SoleGrantAllowsExactly(s: Snapshot, principal: Principal, document: Document, action: string, request: Json,
                               resolver: Resolver, permission: string)
    requires s.grants == [Grant(principal.tenant, document.id, User, principal.subjectId, permission, None)]
    requires document.tenant == principal.tenant && !(s.settings.adminBypass && principal.role == "admin")
    ensures var refused := Authorize(s, principal, document, action, request, resolver) == Denied(AclDenied);
            && (permission == "owner" && action in {"read", "write", "delete", "reindex"} ==> !refused)
            && (permission == "delete" ==> (!refused <==> action in {"delete", "write", "read"}))
            && (permission == "write" ==> (!refused <==> action in {"write", "read"}))
            && (permission == "reindex" ==> (!refused <==> action in {"reindex", "read"}))
            && (permission == "read" ==> (!refused <==> action == "read"))
            && (action !in {"read", "write", "delete", "reindex"} ==> (!refused <==> permission == action))
  {
    RefusedExactlyWithoutGrant(s, principal, document, action, request, resolver);
    assert Entitled(s, principal, document.id, action) <==> Entitles(s.grants[0], principal, s, document.id, action);
  }

  /** A deny policy of the tenant or of everyone, enabled, for documents and the action, that
      matches or fails, keeps the document from everybody. */
  lemma TenantDenyRefuses(s: Snapshot, principal: Principal, document: Document, action: string, request: Json,
                          resolver: Resolver, i: nat)
    requires s.settings.abacEnabled && LoadAttributes(s, principal).Some? && i < |s.policies|
    requires s.policies[i].enabled && s.policies[i].effect == Deny
    requires s.policies[i].tenant in {None, Some(principal.tenant)}
    requires s.policies[i].resourceType in {"document", "*"} && s.policies[i].action in {action, "*"}
    requires OutcomeOf(s.policies[i], QueryAbout(s, principal, document, action, request, resolver)) != Ok(false)
    ensures Authorize(s, principal, document, action, request, resolver) != Permitted
  {
    if Authorize(s, principal, document, action, request, resolver) == Permitted {
      PermittedMeans(s, principal, document, action, request, resolver, i);
    }
  }

  /** Policies of other tenants, or disabled, or for other things than documents and the
      action, change no answer. */
  lemma PoliciesForOthersAreInert(s: Snapshot, principal: Principal, document: Document, action: string, request: Json,
                                  resolver: Resolver, before: seq<Policy>, added: Policy, after: seq<Policy>)
    requires s.policies == before + after
    requires || !added.enabled || added.tenant !in {None, Some(principal.tenant)}
             || added.resourceType !in {"document", "*"} || added.action !in {action, "*"}
    ensures Authorize(s.(policies := before + [added] + after), principal, document, action, request, resolver)
         == Authorize(s, principal, document, action, request, resolver)
  {
    var more := s.(policies := before + [added] + after);
    SameGrants(s, more, principal, document.id, action);
    if LoadAttributes(s, principal).Some? {
      var query := QueryAbout(s, principal, document, action, request, resolver);
      InertPolicy(s, principal.tenant, query, before, added, after);
    }
  }

  lemma SameGrants(s: Snapshot, more: Snapshot, principal: Principal, documentId: string, action: string)
    requires more == s.(policies := more.policies)
    ensures MayAct(more, principal, documentId, action) <==> MayAct(s, principal, documentId, action)
  {
    MayActExactlyWhenEntitled(s, principal, documentId, action);
    MayActExactlyWhenEntitled(more, principal, documentId, action);
    forall i | 0 <= i < |s.grants|
      ensures Entitles(s.grants[i], principal, s, documentId, action)
         <==> Entitles(more.grants[i], principal, more, documentId, action)
    {
    }
  }

  lemma InertPolicy(s: Snapshot, tenant: string, query: Query, before: seq<Policy>, added: Policy, after: seq<Policy>)
    requires s.policies == before + after
    requires || !added.enabled || added.tenant !in {None, Some(tenant)}
             || added.resourceType !in {query.resourceType, "*"} || added.action !in {query.action, "*"}
    ensures PolicyDecision(s.(policies := before + [added] + after), tenant, query) == PolicyDecision(s, tenant, query)
  {
    var p: Policy -> bool := policy => Reaches(policy, tenant);
    KeepJoins(before + [added], after, p);
    KeepJoins(before, [added], p);
    KeepJoins(before, after, p);
    KeepOne(added, p);
    assert Keep(before, p) + [] == Keep(before, p);
    if Reaches(added, tenant) {
      PolicyForOthersHasNoSay(Keep(before, p), added, Keep(after, p), query, false, s.settings.defaultDeny);
    }
  }

  /** Without policies in force grants alone decide, and the answer to a policy's refusal
      gives its reason. */
  lemma PoliciesDecideLast(s: Snapshot, principal: Principal, document: Document, action: string, request: Json,
                           resolver: Resolver)
    requires document.tenant == principal.tenant && RoleRead(principal.role)
    requires (s.settings.adminBypass && principal.role == "admin") || Entitled(s, principal, document.id, action)
    ensures !s.settings.abacEnabled ==> Authorize(s, principal, document, action, request, resolver) == Permitted
    ensures s.settings.abacEnabled && s.policies == [] ==>
              Authorize(s, principal, document, action, request, resolver)
              == if s.settings.defaultDeny then Denied(PolicyDenied(DefaultDeny)) else Permitted
  {
    MayActExactlyWhenEntitled(s, principal, document.id, action);
    RoleReadExactly(s, principal);
  }

  /** Nothing is granted across tenants: grants of other tenants change no decision. */
  lemma ForeignGrantsAreInert(s: Snapshot, principal: Principal, grant: Grant, documentId: string, action: string)
    requires grant.tenant != principal.tenant
    ensures MayAct(s.(grants := s.grants + [grant]), principal, documentId, action)
       <==> MayAct(s, principal, documentId, action)
  {
    var more := s.(grants := s.grants + [grant]);
    forall permission
      ensures Granted(more, principal, documentId, permission) <==> Granted(s, principal, documentId, permission)
    {
      if i :| 0 <= i < |s.grants| && Applies(s.grants[i], principal, s) && s.grants[i].documentId == documentId
              && s.grants[i].permission == permission {
        assert more.grants[i] == s.grants[i];
      }
      if i :| 0 <= i < |more.grants| && Applies(more.grants[i], principal, more) && more.grants[i].documentId == documentId
              && more.grants[i].permission == permission {
        assert more.grants[i] == s.grants[i];
      }
    }
  }
}
