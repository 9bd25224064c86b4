/** The tables of the Atlas data model with their owner fields and indexes, and the tables a purge goes through. */
module AtlasSchema {
  datatype Field = UserId | Other(name: string)

  datatype Index = Index(name: string, fields: seq<Field>)

  datatype Definition = Definition(hasUserId: bool, indexes: seq<Index>)

  datatype Table =
    | Users | ConsentGrants | AuditEvents | AiUsage | Notifications | Signals | MoneyFindings | SourceConnections
    | OauthStates | EmailFindings | GarmentSuggestions | Jobs | Uploads | Items | WearEvents | Outfits | Avatars
    | Renders | Threads | ThreadMessages | Approvals | TripPlans

  const BY_USER := Index("by_user", [UserId])

  function By(name: string, field: string): Index {
    Index(name, [Other(field)])
  }

  function ByUserAnd(name: string, field: string): Index {
    Index(name, [UserId, Other(field)])
  }

  function Schema(t: Table): Definition {
    match t
    case Users => Definition(false, [By("by_clerkId", "clerkId")])
    case ConsentGrants => Definition(true, [ByUserAnd("by_user_scope", "scope")])
    case AuditEvents => Definition(true, [BY_USER])
    case AiUsage => Definition(true, [BY_USER, By("by_createdAt", "createdAt")])
    case Notifications => Definition(true, [BY_USER, ByUserAnd("by_user_dedup", "dedupKey")])
    case Signals => Definition(true, [BY_USER, ByUserAnd("by_user_dedup", "dedupKey")])
    case MoneyFindings => Definition(true, [BY_USER, ByUserAnd("by_user_dedup", "dedupKey")])
    case SourceConnections => Definition(true, [ByUserAnd("by_user_provider", "provider")])
    case OauthStates => Definition(true, [By("by_state", "state"), BY_USER, By("by_expiresAt", "expiresAt")])
    case EmailFindings => Definition(true, [BY_USER, ByUserAnd("by_user_message", "messageRef")])
    case GarmentSuggestions =>
      Definition(true, [ByUserAnd("by_user_status", "status"), ByUserAnd("by_user_message", "messageRef")])
    case Jobs =>
      Definition(true, [BY_USER, ByUserAnd("by_user_status", "status"),
                        Index("by_status", [Other("status"), Other("updatedAt")])])
    case Uploads =>
      Definition(true, [BY_USER, ByUserAnd("by_user_status", "status"), By("by_storage", "storageId")])
    case Items =>
      Definition(true, [ByUserAnd("by_user_status", "status"), ByUserAnd("by_user_category", "category"),
                        By("by_upload", "uploadId"), By("by_storage", "storageId")])
    case WearEvents => Definition(true, [ByUserAnd("by_user_key", "idempotencyKey")])
    case Outfits => Definition(true, [BY_USER, ByUserAnd("by_user_savedAt", "savedAt"), By("by_thread", "threadId")])
    case Avatars => Definition(true, [BY_USER, By("by_storage", "storageId")])
    case Renders =>
      Definition(true, [BY_USER, By("by_outfit", "outfitId"), By("by_job", "jobId"), By("by_share", "shareToken")])
    case Threads => Definition(true, [ByUserAnd("by_user_last", "lastMessageAt")])
    case ThreadMessages => Definition(true, [Index("by_thread", [Other("threadId"), Other("createdAt")]), BY_USER])
    case Approvals => Definition(true, [ByUserAnd("by_user_status", "status")])
    case TripPlans => Definition(true, [BY_USER])
  }

  /** The tables with user-owned rows, in purge order. */
  const USER_TABLES := [
    Renders, Approvals, ThreadMessages, Threads, WearEvents, Outfits, Items, Uploads, Jobs, Avatars, TripPlans,
    GarmentSuggestions, EmailFindings, OauthStates, SourceConnections, MoneyFindings, Signals, Notifications,
    ConsentGrants, AuditEvents, AiUsage]

  /** The index a purge reads each table's rows of one user through. */
  function UserIndex(t: Table): string {
    match t
    case Approvals | GarmentSuggestions | Items => "by_user_status"
    case Threads => "by_user_last"
    case WearEvents => "by_user_key"
    case SourceConnections => "by_user_provider"
    case ConsentGrants => "by_user_scope"
    case _ => "by_user"
  }

  ghost predicate Distinct(tables: seq<Table>) {
    forall i, j :: 0 <= i < j < |tables| ==> tables[i] != tables[j]
  }

  function Rank(t: Table): nat {
    match t
    case Renders => 0 case Approvals => 1 case ThreadMessages => 2 case Threads => 3 case WearEvents => 4
    case Outfits => 5 case Items => 6 case Uploads => 7 case Jobs => 8 case Avatars => 9 case TripPlans => 10
    case GarmentSuggestions => 11 case EmailFindings => 12 case OauthStates => 13 case SourceConnections => 14
    case MoneyFindings => 15 case Signals => 16 case Notifications => 17 case ConsentGrants => 18
    case AuditEvents => 19 case AiUsage => 20 case Users => 21
  }

  lemma RankIsPosition(i: nat)
    requires i < |USER_TABLES|
    ensures Rank(USER_TABLES[i]) == i && USER_TABLES[i] != Users
  {}

  lemma ListedAtRank(t: Table)
    requires t != Users
    ensures Rank(t) < |USER_TABLES| && USER_TABLES[Rank(t)] == t
  {}

  /** Of the schema's tables exactly those with an owner are purged, and each is listed once. */
  lemma EveryTableIsListedOnce()
    ensures Distinct(USER_TABLES)
    ensures forall t: Table :: t in USER_TABLES <==> Schema(t).hasUserId
  {
    hide Schema, Rank;
    forall i | 0 <= i < |USER_TABLES|
      ensures Rank(USER_TABLES[i]) == i && USER_TABLES[i] != Users
    {
      RankIsPosition(i);
    }
    forall t: Table
      ensures t in USER_TABLES <==> Schema(t).hasUserId
    {
      OnlyUsersHaveNoOwner(t);
      if t != Users {
        ListedAtRank(t);
      }
    }
  }

  lemma OnlyUsersHaveNoOwner(t: Table)
    ensures Schema(t).hasUserId <==> t != Users
  {}

  ghost predicate KeyedByUser(indexes: seq<Index>, name: string) {
    exists i :: 0 <= i < |indexes| && indexes[i].name == name && indexes[i].fields != [] &&
        indexes[i].fields[0] == UserId
  }

  /** A purge finds one user's rows: the index it names is the table's own and begins with the owner. */
  lemma UserIndexIsKeyed(t: Table)
    requires Schema(t).hasUserId
    ensures KeyedByUser(Schema(t).indexes, UserIndex(t))
  {
    var indexes := Schema(t).indexes;
    var i := if t.OauthStates? || t.ThreadMessages? then 1 else 0;
    assert indexes[i].name == UserIndex(t) && indexes[i].fields[0] == UserId;
  }
}
