/**
 * The persistence layer of the CRM: the tables `clients`, `leads` and
 * `lead_activities` and the prepared statements over them (clientOps,
 * leadOps, activityOps). The statements that write are methods of the
 * class `Store`, which holds the three tables and the AUTOINCREMENT counter
 * of each; the statements that only read are functions of the tables.
 *
 * A NULL bound to a statement parameter is `None`. CURRENT_TIMESTAMP is the
 * caller's `now`, a natural number that never decreases from one statement
 * to the next.
 */
module Database {
  import opened Wrappers
  import opened Tables

  /** The columns of `clients` besides `id` and `created_at`. */
  datatype ClientCols = ClientCols(name: string, email: string, password: string, company: Option<string>)
  type Client = Row<ClientCols>

  /** What `clientOps.findById` selects: every column but the password. */
  datatype ClientPublic = ClientPublic(id: nat, name: string, email: string, company: Option<string>, createdAt: nat)

  /** The seven columns of `leads` a caller supplies, in the order of the statements' placeholders. */
  datatype LeadFields = LeadFields(
    name: Option<string>, email: Option<string>, phone: Option<string>, status: Option<string>,
    source: Option<string>, budget: Option<string>, notes: Option<string>)

  /** The columns of `leads` besides `id` and `created_at`. `status` is free text: the schema has no CHECK on it. */
  datatype LeadCols = LeadCols(
    clientId: int, name: string, email: Option<string>, phone: Option<string>, status: Option<string>,
    source: Option<string>, budget: Option<string>, notes: Option<string>, updatedAt: nat)
  type Lead = Row<LeadCols>

  /** The columns of `lead_activities` besides `id` and `created_at`. */
  datatype ActivityCols = ActivityCols(leadId: int, activityType: string, description: Option<string>)
  type Activity = Row<ActivityCols>

  /** The constraint a statement violated, named `table.column` as SQLite reports it. */
  datatype DbError = NotNull(column: string) | Unique(column: string)

  /** The row `leadOps.getStats` returns; a SUM over no rows is NULL. */
  datatype Stats = Stats(
    total: nat, newLeads: Option<nat>, contacted: Option<nat>, qualified: Option<nat>,
    converted: Option<nat>, lost: Option<nat>)

  /** The five status values `getStats` counts. */
  const Statuses: seq<string> := ["new", "contacted", "qualified", "converted", "lost"]

  // WHERE conditions of the statements

  function WithEmail(email: string): Client -> bool {
    (c: Client) => c.cols.email == email
  }

  function WithId<C>(id: int): Row<C> -> bool {
    (x: Row<C>) => x.id == id
  }

  function OwnedBy(clientId: int): Lead -> bool {
    (l: Lead) => l.cols.clientId == clientId
  }

  /** `WHERE id = ? AND client_id = ?` of update, updateStatus and delete. */
  function IdAndOwner(id: int, clientId: int): Lead -> bool {
    (l: Lead) => l.id == id && l.cols.clientId == clientId
  }

  function WithStatus(status: string): Lead -> bool {
    (l: Lead) => l.cols.status == Some(status)
  }

  function OfLead(leadId: int): Activity -> bool {
    (a: Activity) => a.cols.leadId == leadId
  }

  // Invariants of the tables beyond those of any AUTOINCREMENT table

  /** `email TEXT UNIQUE`. */
  ghost predicate UniqueEmails(clients: seq<Client>) {
    forall i, j :: 0 <= i < j < |clients| ==> clients[i].cols.email != clients[j].cols.email
  }

  /** `updated_at` is set at insertion and only ever moved to a later CURRENT_TIMESTAMP. */
  ghost predicate UpdatedSinceCreated(leads: seq<Lead>, clock: nat) {
    forall i :: 0 <= i < |leads| ==> leads[i].createdAt <= leads[i].cols.updatedAt <= clock
  }

  // Reading statements

  /** clientOps.findByEmail: exact, case-sensitive equality on the email column. */
  function ClientFindByEmail(clients: seq<Client>, email: string): (r: Option<Client>)
    ensures r.Some? ==> r.value in clients && r.value.cols.email == email
    ensures r.None? <==> forall i :: 0 <= i < |clients| ==> clients[i].cols.email != email
  {
    First(clients, WithEmail(email))
  }

  function PublicColumns(c: Client): ClientPublic {
    ClientPublic(c.id, c.cols.name, c.cols.email, c.cols.company, c.createdAt)
  }

  /** clientOps.findById: the client with that id, without its password. */
  function ClientFindById(clients: seq<Client>, id: int): (r: Option<ClientPublic>)
    ensures r.Some? ==> exists c :: c in clients && c.id == id && r.value == PublicColumns(c)
    ensures r.None? <==> forall i :: 0 <= i < |clients| ==> clients[i].id != id
  {
    match First(clients, WithId(id))
    case None => None
    case Some(c) => Some(PublicColumns(c))
  }

  /** leadOps.findByClientId: the leads of one client, latest first. */
  function LeadFindByClientId(leads: seq<Lead>, clientId: int): (r: seq<Lead>)
    ensures forall i :: 0 <= i < |r| ==> r[i] in leads && r[i].cols.clientId == clientId
    ensures forall l :: l in leads && l.cols.clientId == clientId ==> l in r
  {
    var r := NewestFirst(leads, OwnedBy(clientId));
    assert forall l :: l in leads && l.cols.clientId == clientId ==> l in r by {
      forall l | l in leads && l.cols.clientId == clientId ensures l in r {
        var k :| 0 <= k < |leads| && leads[k] == l;
      }
    }
    r
  }

  /** leadOps.findById: looks the lead up by id alone, whoever owns it. */
  function LeadFindById(leads: seq<Lead>, id: int): (r: Option<Lead>)
    ensures r.Some? ==> r.value in leads && r.value.id == id
    ensures r.None? <==> forall i :: 0 <= i < |leads| ==> leads[i].id != id
  {
    First(leads, WithId(id))
  }

  /**
   * `SUM(CASE WHEN status = s THEN 1 ELSE 0 END)` over the selected rows:
   * NULL exactly when there are no rows, otherwise the number of rows with
   * that status.
   */
  function SumWhenStatus(owned: seq<Lead>, status: string): (r: Option<nat>)
    ensures r.None? <==> owned == []
    ensures r.Some? ==> r.value <= |owned| && r.value == Count(owned, WithStatus(status))
  {
    if owned == [] then None else Some(Count(owned, WithStatus(status)))
  }

  /**
   * leadOps.getStats: `COUNT(*)` and one SUM per status over the leads of one
   * client. `total` is 0 exactly when the client owns no lead, and then, and
   * only then, the five SUMs are NULL.
   */
  function LeadGetStats(leads: seq<Lead>, clientId: int): (s: Stats)
    ensures s.total == 0 <==> forall i :: 0 <= i < |leads| ==> leads[i].cols.clientId != clientId
    ensures s.total == 0 <==> s.newLeads.None?
    ensures s.newLeads.None? <==> s.contacted.None?
    ensures s.contacted.None? <==> s.qualified.None?
    ensures s.qualified.None? <==> s.converted.None?
    ensures s.converted.None? <==> s.lost.None?
  {
    var owned := LeadFindByClientId(leads, clientId);
    Stats(|owned|, SumWhenStatus(owned, "new"), SumWhenStatus(owned, "contacted"),
          SumWhenStatus(owned, "qualified"), SumWhenStatus(owned, "converted"), SumWhenStatus(owned, "lost"))
  }

  /** activityOps.findByLeadId: the activities of one lead, latest first. */
  function ActivityFindByLeadId(activities: seq<Activity>, leadId: int): (r: seq<Activity>)
    ensures forall i :: 0 <= i < |r| ==> r[i] in activities && r[i].cols.leadId == leadId
    ensures forall a :: a in activities && a.cols.leadId == leadId ==> a in r
  {
    var r := NewestFirst(activities, OfLead(leadId));
    assert forall a :: a in activities && a.cols.leadId == leadId ==> a in r by {
      forall a | a in activities && a.cols.leadId == leadId ensures a in r {
        var k :| 0 <= k < |activities| && activities[k] == a;
      }
    }
    r
  }

  // What the writing statements compute

  /** The constraint `INSERT INTO clients` violates first: the NOT NULL columns in order, then UNIQUE(email). */
  function ClientInsertError(clients: seq<Client>, name: Option<string>, email: Option<string>, password: Option<string>): (e: Option<DbError>)
    ensures e.None? <==>
      name.Some? && email.Some? && password.Some? && forall i :: 0 <= i < |clients| ==> clients[i].cols.email != email.value
    ensures e == Some(Unique("clients.email")) <==>
      name.Some? && email.Some? && password.Some? && exists i :: 0 <= i < |clients| && clients[i].cols.email == email.value
  {
    if name.None? then Some(NotNull("clients.name"))
    else if email.None? then Some(NotNull("clients.email"))
    else if password.None? then Some(NotNull("clients.password"))
    else if ClientFindByEmail(clients, email.value).Some? then Some(Unique("clients.email"))
    else None
  }

  /**
   * The columns `INSERT INTO leads` stores: the values bound, a NULL status
   * included (the column is named, so its default does not apply), and
   * `updated_at` at its default, the insertion time.
   */
  function NewLeadCols(clientId: int, f: LeadFields, now: nat): (c: LeadCols)
    requires f.name.Some?
    ensures c.clientId == clientId && Some(c.name) == f.name
    ensures c.status == f.status
    ensures c.email == f.email && c.phone == f.phone && c.source == f.source && c.budget == f.budget && c.notes == f.notes
    ensures c.updatedAt == now
  {
    LeadCols(clientId, f.name.value, f.email, f.phone, f.status, f.source, f.budget, f.notes, now)
  }

  /** The SET list of leadOps.update: the seven caller-supplied columns and `updated_at`; `client_id` is kept. */
  function Edit(f: LeadFields, now: nat): (assign: LeadCols -> LeadCols)
    requires f.name.Some?
    ensures forall c :: assign(c).clientId == c.clientId
    ensures forall c :: Some(assign(c).name) == f.name && assign(c).status == f.status && assign(c).updatedAt == now
    ensures forall c :: assign(c).email == f.email && assign(c).phone == f.phone && assign(c).source == f.source
                        && assign(c).budget == f.budget && assign(c).notes == f.notes
  {
    (c: LeadCols) => c.(name := f.name.value, email := f.email, phone := f.phone, status := f.status,
                        source := f.source, budget := f.budget, notes := f.notes, updatedAt := now)
  }

  /** The SET list of leadOps.updateStatus: `status` and `updated_at`, every other column kept. */
  function SetStatus(status: Option<string>, now: nat): (assign: LeadCols -> LeadCols)
    ensures forall c :: assign(c).(status := c.status, updatedAt := c.updatedAt) == c
    ensures forall c :: assign(c).status == status && assign(c).updatedAt == now
  {
    (c: LeadCols) => c.(status := status, updatedAt := now)
  }

  /** The in-memory database: three tables and the sqlite_sequence entry of each. */
  class Store {
    var clients: seq<Client>
    var leads: seq<Lead>
    var activities: seq<Activity>
    var clientSeq: nat
    var leadSeq: nat
    var activitySeq: nat
    /** The latest CURRENT_TIMESTAMP a statement has used. */
    ghost var clock: nat

    ghost predicate Valid()
      reads this
    {
      && WellFormed(clients, clientSeq, clock) && UniqueEmails(clients)
      && WellFormed(leads, leadSeq, clock) && UpdatedSinceCreated(leads, clock)
      && WellFormed(activities, activitySeq, clock)
    }

    /** A freshly created database file: the CREATE TABLE statements over nothing. */
    constructor ()
      ensures Valid()
      ensures clients == [] && leads == [] && activities == []
      ensures clientSeq == 0 && leadSeq == 0 && activitySeq == 0
      ensures clock == 0
    {
      clients, leads, activities := [], [], [];
      clientSeq, leadSeq, activitySeq := 0, 0, 0;
      clock := 0;
    }

    /** Moving the clock forward keeps every table valid. */
    lemma LaterClock(now: nat)
      requires Valid() && clock <= now
      ensures WellFormed(leads, leadSeq, now) && UpdatedSinceCreated(leads, now)
      ensures WellFormed(activities, activitySeq, now)
    {
      WellFormedLater(leads, leadSeq, clock, now);
      WellFormedLater(activities, activitySeq, clock, now);
    }

    /** clientOps.create; on success returns `lastInsertRowid`. */
    method ClientCreate(name: Option<string>, email: Option<string>, password: Option<string>, company: Option<string>, now: nat)
      returns (r: Result<nat, DbError>)
      requires Valid() && clock <= now
      modifies this`clients, this`clientSeq, this`clock
      ensures Valid() && clock == now
      ensures match ClientInsertError(old(clients), name, email, password)
        case Some(e) =>
          r == Err(e) && clients == old(clients) && clientSeq == old(clientSeq)
        case None =>
          && r == Ok(old(clientSeq) + 1) && clientSeq == old(clientSeq) + 1
          && clients == old(clients) + [Row(clientSeq, now, ClientCols(name.value, email.value, password.value, company))]
    {
      var e := ClientInsertError(clients, name, email, password);
      LaterClock(now);
      if e.Some? {
        WellFormedLater(clients, clientSeq, clock, now);
        clock := now;
        return Err(e.value);
      }
      var row := Row(clientSeq + 1, now, ClientCols(name.value, email.value, password.value, company));
      InsertKeepsWellFormed(clients, clientSeq, clock, now, row.cols);
      clients := clients + [row];
      clientSeq := clientSeq + 1;
      clock := now;
      r := Ok(clientSeq);
    }

    /** leadOps.create; on success returns `lastInsertRowid`. */
    method LeadCreate(clientId: Option<int>, f: LeadFields, now: nat) returns (r: Result<nat, DbError>)
      requires Valid() && clock <= now
      modifies this`leads, this`leadSeq, this`clock
      ensures Valid() && clock == now
      ensures clientId.None? ==>
        r == Err(NotNull("leads.client_id")) && leads == old(leads) && leadSeq == old(leadSeq)
      ensures clientId.Some? && f.name.None? ==>
        r == Err(NotNull("leads.name")) && leads == old(leads) && leadSeq == old(leadSeq)
      ensures clientId.Some? && f.name.Some? ==>
        && r == Ok(old(leadSeq) + 1) && leadSeq == old(leadSeq) + 1
        && leads == old(leads) + [Row(leadSeq, now, NewLeadCols(clientId.value, f, now))]
    {
      clock := now;
      if clientId.None? {
        return Err(NotNull("leads.client_id"));
      }
      if f.name.None? {
        return Err(NotNull("leads.name"));
      }
      leads := leads + [Row(leadSeq + 1, now, NewLeadCols(clientId.value, f, now))];
      leadSeq := leadSeq + 1;
      r := Ok(leadSeq);
    }

    /** leadOps.update; on success returns the number of rows changed. */
    method LeadUpdate(f: LeadFields, id: int, clientId: int, now: nat) returns (r: Result<nat, DbError>)
      requires Valid() && clock <= now
      modifies this`leads, this`clock
      ensures Valid() && clock == now
      ensures var n := Count(old(leads), IdAndOwner(id, clientId));
        && (n == 0 ==> r == Ok(0) && leads == old(leads))
        && (n > 0 && f.name.None? ==> r == Err(NotNull("leads.name")) && leads == old(leads))
        && (n > 0 && f.name.Some? ==>
              r == Ok(n) && leads == UpdateWhere(old(leads), IdAndOwner(id, clientId), Edit(f, now)))
      ensures r.Ok? ==> r.value <= 1
      ensures forall c :: c != clientId ==> LeadFindByClientId(leads, c) == LeadFindByClientId(old(leads), c)
    {
      ChangeCount(leads, id, clientId);
      var n := Count(leads, IdAndOwner(id, clientId));
      LaterClock(now);
      WellFormedLater(clients, clientSeq, clock, now);
      clock := now;
      if n == 0 {
        return Ok(0);
      }
      if f.name.None? {
        return Err(NotNull("leads.name"));
      }
      forall c | c != clientId
        ensures LeadFindByClientId(UpdateWhere(leads, IdAndOwner(id, clientId), Edit(f, now)), c)
             == LeadFindByClientId(leads, c)
      {
        OtherOwnersUnaffectedByUpdate(leads, id, clientId, Edit(f, now), c);
      }
      UpdateKeepsWellFormed(leads, IdAndOwner(id, clientId), Edit(f, now), leadSeq, old(clock), now);
      UpdateKeepsUpdatedSinceCreated(leads, IdAndOwner(id, clientId), Edit(f, now), old(clock), now);
      leads := UpdateWhere(leads, IdAndOwner(id, clientId), Edit(f, now));
      r := Ok(n);
    }

    /** leadOps.updateStatus; returns the number of rows changed. */
    method LeadUpdateStatus(status: Option<string>, id: int, clientId: int, now: nat) returns (changes: nat)
      requires Valid() && clock <= now
      modifies this`leads, this`clock
      ensures Valid() && clock == now
      ensures changes == Count(old(leads), IdAndOwner(id, clientId)) && changes <= 1
      ensures leads == UpdateWhere(old(leads), IdAndOwner(id, clientId), SetStatus(status, now))
      ensures changes == 0 ==> leads == old(leads)
      ensures forall c :: c != clientId ==> LeadFindByClientId(leads, c) == LeadFindByClientId(old(leads), c)
    {
      ChangeCount(leads, id, clientId);
      changes := Count(leads, IdAndOwner(id, clientId));
      if changes == 0 {
        UpdateWhereMiss(leads, IdAndOwner(id, clientId), SetStatus(status, now));
      }
      forall c | c != clientId
        ensures LeadFindByClientId(UpdateWhere(leads, IdAndOwner(id, clientId), SetStatus(status, now)), c)
             == LeadFindByClientId(leads, c)
      {
        OtherOwnersUnaffectedByUpdate(leads, id, clientId, SetStatus(status, now), c);
      }
      UpdateKeepsWellFormed(leads, IdAndOwner(id, clientId), SetStatus(status, now), leadSeq, clock, now);
      UpdateKeepsUpdatedSinceCreated(leads, IdAndOwner(id, clientId), SetStatus(status, now), clock, now);
      LaterClock(now);
      WellFormedLater(clients, clientSeq, clock, now);
      clock := now;
      leads := UpdateWhere(leads, IdAndOwner(id, clientId), SetStatus(status, now));
    }

    /** leadOps.delete; returns the number of rows removed. No statement touches `lead_activities`. */
    method LeadDelete(id: int, clientId: int) returns (changes: nat)
      requires Valid()
      modifies this`leads
      ensures Valid()
      ensures changes == Count(old(leads), IdAndOwner(id, clientId)) && changes <= 1
      ensures leads == DeleteWhere(old(leads), IdAndOwner(id, clientId))
      ensures changes == 0 ==> leads == old(leads)
      ensures forall c :: c != clientId ==> LeadFindByClientId(leads, c) == LeadFindByClientId(old(leads), c)
    {
      ChangeCount(leads, id, clientId);
      changes := Count(leads, IdAndOwner(id, clientId));
      if changes == 0 {
        DeleteWhereMiss(leads, IdAndOwner(id, clientId));
      }
      DeleteKeepsWellFormed(leads, IdAndOwner(id, clientId), leadSeq, clock);
      DeleteKeepsUpdatedSinceCreated(leads, IdAndOwner(id, clientId), clock);
      forall c | c != clientId
        ensures LeadFindByClientId(DeleteWhere(leads, IdAndOwner(id, clientId)), c) == LeadFindByClientId(leads, c)
      {
        OtherOwnersUnaffectedByDelete(leads, id, clientId, c);
      }
      leads := DeleteWhere(leads, IdAndOwner(id, clientId));
    }

    /** activityOps.create; on success returns `lastInsertRowid`. The only statement that writes activities. */
    method ActivityCreate(leadId: Option<int>, activityType: Option<string>, description: Option<string>, now: nat)
      returns (r: Result<nat, DbError>)
      requires Valid() && clock <= now
      modifies this`activities, this`activitySeq, this`clock
      ensures Valid() && clock == now
      ensures leadId.None? ==>
        r == Err(NotNull("lead_activities.lead_id")) && activities == old(activities) && activitySeq == old(activitySeq)
      ensures leadId.Some? && activityType.None? ==>
        r == Err(NotNull("lead_activities.activity_type")) && activities == old(activities) && activitySeq == old(activitySeq)
      ensures leadId.Some? && activityType.Some? ==>
        && r == Ok(old(activitySeq) + 1) && activitySeq == old(activitySeq) + 1
        && activities == old(activities) + [Row(activitySeq, now, ActivityCols(leadId.value, activityType.value, description))]
    {
      clock := now;
      if leadId.None? {
        return Err(NotNull("lead_activities.lead_id"));
      }
      if activityType.None? {
        return Err(NotNull("lead_activities.activity_type"));
      }
      activities := activities + [Row(activitySeq + 1, now, ActivityCols(leadId.value, activityType.value, description))];
      activitySeq := activitySeq + 1;
      r := Ok(activitySeq);
    }
  }

  // Properties of the statements

  /** An UPDATE whose SET list moves `updated_at` to the statement's time keeps it between creation and the clock. */
  lemma UpdateKeepsUpdatedSinceCreated(leads: seq<Lead>, hit: Lead -> bool, assign: LeadCols -> LeadCols, clock: nat, now: nat)
    requires UpdatedSinceCreated(leads, clock) && clock <= now
    requires forall c :: assign(c).updatedAt == now
    ensures UpdatedSinceCreated(UpdateWhere(leads, hit, assign), now)
  {
    var u := UpdateWhere(leads, hit, assign);
    forall i | 0 <= i < |u| ensures u[i].createdAt <= u[i].cols.updatedAt <= now {
      if hit(leads[i]) {
        assert u[i] == Assigned(leads[i], assign);
      } else {
        assert u[i] == leads[i];
      }
    }
  }

  lemma DeleteKeepsUpdatedSinceCreated(leads: seq<Lead>, hit: Lead -> bool, clock: nat)
    requires UpdatedSinceCreated(leads, clock)
    ensures UpdatedSinceCreated(DeleteWhere(leads, hit), clock)
  {
    var d := DeleteWhere(leads, hit);
    forall i | 0 <= i < |d| ensures d[i].createdAt <= d[i].cols.updatedAt <= clock {
      var k :| 0 <= k < |leads| && leads[k] == d[i];
    }
  }

  /**
   * Since `id` is the primary key, `WHERE id = ? AND client_id = ?` matches
   * one row exactly when the lead exists and belongs to that client, and none
   * otherwise: the change count of update, updateStatus and delete.
   */
  lemma ChangeCount(leads: seq<Lead>, id: int, clientId: int)
    requires IdsIncreasing(leads)
    ensures var found := LeadFindById(leads, id);
      Count(leads, IdAndOwner(id, clientId)) == if found.Some? && found.value.cols.clientId == clientId then 1 else 0
  {
    var hit := IdAndOwner(id, clientId);
    CountAtMostOne(leads, hit, id);
    var found := LeadFindById(leads, id);
    if Count(leads, hit) == 1 {
      var k :| 0 <= k < |leads| && hit(leads[k]);
      forall i | 0 <= i < |leads| && i != k ensures !WithId(id)(leads[i]) {
        if i < k { assert leads[i].id < leads[k].id; } else { assert leads[k].id < leads[i].id; }
      }
      FirstIsOnlyMatch(leads, WithId(id), k);
    }
    if found.Some? && found.value.cols.clientId == clientId {
      var k :| 0 <= k < |leads| && leads[k] == found.value;
      assert hit(leads[k]);
    }
  }

  /**
   * updateStatus changes only `status` and `updated_at`, and only of the row
   * matching both id and owner; every other row and column stays as it was.
   */
  lemma UpdateStatusTouchesOnlyStatus(leads: seq<Lead>, status: Option<string>, id: int, owner: int, now: nat)
    ensures var u := UpdateWhere(leads, IdAndOwner(id, owner), SetStatus(status, now));
      forall i :: 0 <= i < |leads| ==>
        && u[i].cols.(status := None, updatedAt := 0) == leads[i].cols.(status := None, updatedAt := 0)
        && u[i].id == leads[i].id && u[i].createdAt == leads[i].createdAt
        && (leads[i].id == id && leads[i].cols.clientId == owner ==> u[i].cols.status == status && u[i].cols.updatedAt == now)
        && (leads[i].id != id || leads[i].cols.clientId != owner ==> u[i] == leads[i])
  {
  }

  /**
   * update rewrites the seven editable columns and `updated_at` of the row
   * matching both id and owner; `client_id`, `id` and `created_at` stay, and
   * every other row is left alone.
   */
  lemma UpdateTouchesOnlyEditableColumns(leads: seq<Lead>, f: LeadFields, id: int, owner: int, now: nat)
    requires f.name.Some?
    ensures var u := UpdateWhere(leads, IdAndOwner(id, owner), Edit(f, now));
      forall i :: 0 <= i < |leads| ==>
        && u[i].id == leads[i].id && u[i].createdAt == leads[i].createdAt
        && u[i].cols.clientId == leads[i].cols.clientId
        && (leads[i].id == id && leads[i].cols.clientId == owner ==>
              && Some(u[i].cols.name) == f.name && u[i].cols.email == f.email && u[i].cols.phone == f.phone
              && u[i].cols.status == f.status && u[i].cols.source == f.source && u[i].cols.budget == f.budget
              && u[i].cols.notes == f.notes && u[i].cols.updatedAt == now)
        && (leads[i].id != id || leads[i].cols.clientId != owner ==> u[i] == leads[i])
  {
  }

  /** The leads of every other client, and so their statistics, are untouched by an owner-scoped update. */
  lemma OtherOwnersUnaffectedByUpdate(leads: seq<Lead>, id: int, owner: int, assign: LeadCols -> LeadCols, other: int)
    requires other != owner
    requires forall c :: assign(c).clientId == c.clientId
    ensures LeadFindByClientId(UpdateWhere(leads, IdAndOwner(id, owner), assign), other) == LeadFindByClientId(leads, other)
    ensures LeadGetStats(UpdateWhere(leads, IdAndOwner(id, owner), assign), other) == LeadGetStats(leads, other)
  {
    NewestFirstUpdateDisjoint(leads, OwnedBy(other), IdAndOwner(id, owner), assign);
  }

  /** The leads of every other client, and so their statistics, are untouched by an owner-scoped delete. */
  lemma OtherOwnersUnaffectedByDelete(leads: seq<Lead>, id: int, owner: int, other: int)
    requires other != owner
    ensures LeadFindByClientId(DeleteWhere(leads, IdAndOwner(id, owner)), other) == LeadFindByClientId(leads, other)
    ensures LeadGetStats(DeleteWhere(leads, IdAndOwner(id, owner)), other) == LeadGetStats(leads, other)
  {
    NewestFirstDeleteDisjoint(leads, OwnedBy(other), IdAndOwner(id, owner));
  }

  /** After an update by its owner, findById sees the lead with the new columns and the same id, owner and created_at. */
  lemma UpdateSeenByFindById(leads: seq<Lead>, id: int, owner: int, assign: LeadCols -> LeadCols, l: Lead)
    requires IdsIncreasing(leads)
    requires LeadFindById(leads, id) == Some(l) && l.cols.clientId == owner
    ensures LeadFindById(UpdateWhere(leads, IdAndOwner(id, owner), assign), id) == Some(Assigned(l, assign))
  {
    var k :| 0 <= k < |leads| && leads[k] == l;
    var u := UpdateWhere(leads, IdAndOwner(id, owner), assign);
    forall i | 0 <= i < |u| && i != k ensures !WithId(id)(u[i]) {
      if i < k { assert leads[i].id < leads[k].id; } else { assert leads[k].id < leads[i].id; }
    }
    FirstIsOnlyMatch(u, WithId(id), k);
  }

  /** A delete by the owner removes exactly that lead; every other row survives. */
  lemma DeleteRemovesOnlyThatLead(leads: seq<Lead>, id: int, owner: int, l: Lead)
    requires IdsIncreasing(leads)
    requires LeadFindById(leads, id) == Some(l) && l.cols.clientId == owner
    ensures |DeleteWhere(leads, IdAndOwner(id, owner))| == |leads| - 1
    ensures LeadFindById(DeleteWhere(leads, IdAndOwner(id, owner)), id).None?
    ensures forall x :: x in leads && x.id != id ==> x in DeleteWhere(leads, IdAndOwner(id, owner))
  {
    ChangeCount(leads, id, owner);
    var d := DeleteWhere(leads, IdAndOwner(id, owner));
    forall i | 0 <= i < |d| ensures d[i].id != id {
      assert d[i] in leads && !IdAndOwner(id, owner)(d[i]);
      var k :| 0 <= k < |leads| && leads[k] == d[i];
      var m :| 0 <= m < |leads| && leads[m] == l;
    }
    forall x | x in leads && x.id != id ensures x in d {
      var k :| 0 <= k < |leads| && leads[k] == x;
    }
  }

  /** Client emails are unique, so at most one row matches findByEmail, and it is the one returned. */
  lemma {:induction false} EmailMatchesAtMostOne(clients: seq<Client>, email: string)
    requires UniqueEmails(clients)
    ensures Count(clients, WithEmail(email)) <= 1
    ensures Count(clients, WithEmail(email)) == 1 <==> ClientFindByEmail(clients, email).Some?
  {
    if clients != [] {
      assert UniqueEmails(clients[1..]);
      EmailMatchesAtMostOne(clients[1..], email);
      if clients[0].cols.email == email {
        forall i | 0 <= i < |clients[1..]| ensures !WithEmail(email)(clients[1..][i]) {
          assert clients[1..][i] == clients[i + 1];
        }
      }
    }
  }

  /** findById answers the same whatever passwords are stored: the password never reaches its result. */
  lemma {:induction false} ClientFindByIdIgnoresPasswords(a: seq<Client>, b: seq<Client>, id: int)
    requires |a| == |b|
    requires forall i :: 0 <= i < |a| ==> PublicColumns(a[i]) == PublicColumns(b[i])
    ensures ClientFindById(a, id) == ClientFindById(b, id)
  {
    if a != [] {
      ClientFindByIdIgnoresPasswords(a[1..], b[1..], id);
      assert PublicColumns(a[0]) == PublicColumns(b[0]);
    }
  }

  /** findByClientId lists its leads newest first. */
  lemma LeadsNewestFirst(leads: seq<Lead>, clientId: int)
    requires OldestFirst(leads)
    ensures NewestFirstOrder(LeadFindByClientId(leads, clientId))
  {
    NewestFirstOrdered(leads, OwnedBy(clientId));
  }

  /** findByLeadId lists its activities newest first. */
  lemma ActivitiesNewestFirst(activities: seq<Activity>, leadId: int)
    requires OldestFirst(activities)
    ensures NewestFirstOrder(ActivityFindByLeadId(activities, leadId))
  {
    NewestFirstOrdered(activities, OfLead(leadId));
  }

  /** Appending activities never rewrites a lead's history: the old list is the tail of the new one. */
  lemma ActivityHistoryKept(activities: seq<Activity>, appended: seq<Activity>, leadId: int)
    ensures ActivityFindByLeadId(activities + appended, leadId)
         == ActivityFindByLeadId(appended, leadId) + ActivityFindByLeadId(activities, leadId)
  {
    NewestFirstAppend(activities, appended, OfLead(leadId));
  }

  /** The columns of getStats are counts over the whole leads table: total per client, each SUM per client and status. */
  lemma StatsAreCounts(leads: seq<Lead>, clientId: int, status: string)
    ensures LeadGetStats(leads, clientId).total == Count(leads, OwnedBy(clientId))
    ensures SumWhenStatus(LeadFindByClientId(leads, clientId), status)
         == if Count(leads, OwnedBy(clientId)) == 0 then None
            else Some(Count(leads, Both(OwnedBy(clientId), WithStatus(status))))
  {
    CountWithin(leads, OwnedBy(clientId), WithStatus(status));
  }

  function OrZero(v: Option<nat>): nat {
    if v.Some? then v.value else 0
  }

  /** What the five status columns of getStats add up to, a NULL read as 0. */
  function StatusSum(s: Stats): nat {
    OrZero(s.newLeads) + OrZero(s.contacted) + OrZero(s.qualified) + OrZero(s.converted) + OrZero(s.lost)
  }

  /** A lead whose status is one of the five counted values. */
  predicate KnownStatus(l: Lead) {
    l.cols.status.Some? && l.cols.status.value in Statuses
  }

  /** The five status counts of some leads never exceed their number, and reach it exactly when every status is a known one. */
  lemma {:induction false} StatusCountsBound(owned: seq<Lead>)
    ensures var sum := Count(owned, WithStatus("new")) + Count(owned, WithStatus("contacted"))
          + Count(owned, WithStatus("qualified")) + Count(owned, WithStatus("converted"))
          + Count(owned, WithStatus("lost"));
      && sum <= |owned|
      && (sum == |owned| <==> forall i :: 0 <= i < |owned| ==> KnownStatus(owned[i]))
  {
    if owned != [] {
      var x, rest := owned[0], owned[1..];
      StatusCountsBound(rest);
      var head := (if WithStatus("new")(x) then 1 else 0) + (if WithStatus("contacted")(x) then 1 else 0)
        + (if WithStatus("qualified")(x) then 1 else 0) + (if WithStatus("converted")(x) then 1 else 0)
        + (if WithStatus("lost")(x) then 1 else 0);
      assert head <= 1 && (head == 1 <==> KnownStatus(x));
      assert Count(owned, WithStatus("new")) + Count(owned, WithStatus("contacted"))
           + Count(owned, WithStatus("qualified")) + Count(owned, WithStatus("converted"))
           + Count(owned, WithStatus("lost"))
          == head + Count(rest, WithStatus("new")) + Count(rest, WithStatus("contacted"))
           + Count(rest, WithStatus("qualified")) + Count(rest, WithStatus("converted"))
           + Count(rest, WithStatus("lost"));
      if forall i :: 0 <= i < |owned| ==> KnownStatus(owned[i]) {
        forall i | 0 <= i < |rest| ensures KnownStatus(rest[i]) {
          assert rest[i] == owned[i + 1];
        }
      }
      if KnownStatus(x) && forall i :: 0 <= i < |rest| ==> KnownStatus(rest[i]) {
        forall i | 0 <= i < |owned| ensures KnownStatus(owned[i]) {
          if i > 0 {
            assert owned[i] == rest[i - 1];
          }
        }
      }
    }
  }

  /** getStats: the five status columns sum to at most `total`, with equality iff every lead of the client has a known status. */
  lemma StatsStatusSum(leads: seq<Lead>, clientId: int)
    ensures StatusSum(LeadGetStats(leads, clientId)) <= LeadGetStats(leads, clientId).total
    ensures StatusSum(LeadGetStats(leads, clientId)) == LeadGetStats(leads, clientId).total
        <==> forall l :: l in leads && l.cols.clientId == clientId ==> KnownStatus(l)
  {
    var owned := LeadFindByClientId(leads, clientId);
    StatusCountsBound(owned);
    if forall i :: 0 <= i < |owned| ==> KnownStatus(owned[i]) {
      forall l | l in leads && l.cols.clientId == clientId ensures KnownStatus(l) {
        var k :| 0 <= k < |owned| && owned[k] == l;
      }
    }
  }
}
