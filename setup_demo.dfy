/**
 * The demo seeding routine of setup-demo.js: unless a client with the demo
 * email exists, create the demo client and insert the five sample leads for
 * it, one insert per element, in array order.
 *
 * The password hash is a parameter: it stands for the hash this run of
 * bcrypt.hash obtained; the random salt and the algorithm are not modelled.
 * Console output and process.exit are not modelled.
 */
module DemoSetup {
  import opened Wrappers
  import opened Tables
  import opened Database

  const DemoName := "Financial Advisor Demo"
  const DemoEmail := "demo@financialadvisor.com"
  const DemoPassword := "demo123"
  const DemoCompany := "Demo Financial Services"

  /** The cost factor handed to bcrypt.hash. */
  const SaltRounds: nat := 10

  /** The sample leads, in the order they are inserted. */
  const SampleLeads: seq<LeadFields> := [
    LeadFields(Some("John Smith"), Some("john.smith@example.com"), Some("+1 (555) 123-4567"), Some("new"),
               Some("Website Contact Form"), Some("$250,000 - $500,000"),
               Some("Interested in retirement planning and investment management.")),
    LeadFields(Some("Sarah Johnson"), Some("sarah.j@example.com"), Some("+1 (555) 234-5678"), Some("contacted"),
               Some("Referral"), Some("$100,000 - $250,000"),
               Some("Looking for wealth management services. Has existing portfolio.")),
    LeadFields(Some("Michael Brown"), Some("mbrown@example.com"), Some("+1 (555) 345-6789"), Some("qualified"),
               Some("LinkedIn"), Some("$500,000+"),
               Some("Business owner seeking comprehensive financial planning.")),
    LeadFields(Some("Emily Davis"), Some("emily.davis@example.com"), Some("+1 (555) 456-7890"), Some("converted"),
               Some("Google Ads"), Some("$75,000 - $100,000"),
               Some("Signed up for retirement planning package.")),
    LeadFields(Some("Robert Wilson"), Some("r.wilson@example.com"), Some("+1 (555) 567-8901"), Some("new"),
               Some("Facebook"), Some("$50,000 - $75,000"),
               Some("First-time investor, needs guidance on starting portfolio."))
  ]

  /** How a run ended: the demo client was there already, or it was created with this id. */
  datatype Outcome = AlreadyExists | Created(clientId: nat)

  /** The demo client's row, with the hash of the demo password in the password column. */
  function DemoClientRow(id: nat, hashed: string, now: nat): Client {
    Row(id, now, ClientCols(DemoName, DemoEmail, hashed, Some(DemoCompany)))
  }

  /**
   * The CURRENT_TIMESTAMP of each statement a run issues: `times[0]` for the
   * client insert, `times[1 + i]` for the insert of sample lead `i`. Each
   * statement reads the clock afresh, so they may differ, but never go back
   * before `clock` or before an earlier statement.
   */
  ghost predicate RunTimestamps(times: seq<nat>, clock: nat) {
    && |times| == 1 + |SampleLeads|
    && clock <= times[0]
    && forall i, j :: 0 <= i < j < |times| ==> times[i] <= times[j]
  }

  /** The rows the seeding loop inserts for `clientId` when the leads counter stands at `seqNo`, lead `i` at `times[1 + i]`. */
  function DemoLeadRows(clientId: nat, seqNo: nat, times: seq<nat>): seq<Lead>
    requires |times| == 1 + |SampleLeads|
  {
    seq(|SampleLeads|, i requires 0 <= i < |SampleLeads| =>
      Row(seqNo + i + 1, times[1 + i], NewLeadCols(clientId, SampleLeads[i], times[1 + i])))
  }

  /**
   * setupDemo: if findByEmail finds the demo email, return at once without
   * writing. Otherwise insert the demo client with the hashed password, then
   * insert the five sample leads one by one in array order, each owned by the
   * id the client insert returned.
   */
  method SetupDemo(db: Store, hash: (string, nat) -> string, times: seq<nat>) returns (outcome: Outcome)
    requires db.Valid() && RunTimestamps(times, db.clock)
    modifies db
    ensures db.Valid() && db.clock <= times[|times| - 1]
    ensures db.activities == old(db.activities) && db.activitySeq == old(db.activitySeq)
    ensures old(ClientFindByEmail(db.clients, DemoEmail)).Some? ==>
      && outcome == AlreadyExists
      && db.clients == old(db.clients) && db.clientSeq == old(db.clientSeq)
      && db.leads == old(db.leads) && db.leadSeq == old(db.leadSeq)
    ensures old(ClientFindByEmail(db.clients, DemoEmail)).None? ==>
      && outcome == Created(old(db.clientSeq) + 1)
      && db.clients == old(db.clients) + [DemoClientRow(outcome.clientId, hash(DemoPassword, SaltRounds), times[0])]
      && db.clientSeq == outcome.clientId
      && db.leads == old(db.leads) + DemoLeadRows(outcome.clientId, old(db.leadSeq), times)
      && db.leadSeq == old(db.leadSeq) + |SampleLeads|
    ensures Count(db.clients, WithEmail(DemoEmail)) == 1
    ensures old(ClientFindByEmail(db.clients, DemoEmail)).None? && old(LeadFindByClientId(db.leads, db.clientSeq + 1)) == [] ==>
      LeadGetStats(db.leads, outcome.clientId) == Stats(5, Some(2), Some(1), Some(1), Some(1), Some(0))
  {
    var existing := ClientFindByEmail(db.clients, DemoEmail);
    if existing.Some? {
      EmailMatchesAtMostOne(db.clients, DemoEmail);
      return AlreadyExists;
    }
    var hashed := hash(DemoPassword, SaltRounds);
    assert ClientInsertError(db.clients, Some(DemoName), Some(DemoEmail), Some(hashed)) == None;
    var created := db.ClientCreate(Some(DemoName), Some(DemoEmail), Some(hashed), Some(DemoCompany), times[0]);
    var clientId := created.value;
    ghost var leads0, seq0 := db.leads, db.leadSeq;
    InsertSampleLeads(db, clientId, times);
    assert Count(db.clients, WithEmail(DemoEmail)) == 1 by {
      assert db.clients[|db.clients| - 1].cols.email == DemoEmail;
      EmailMatchesAtMostOne(db.clients, DemoEmail);
    }
    if LeadFindByClientId(leads0, clientId) == [] {
      DemoStats(leads0, clientId, seq0, times);
    }
    outcome := Created(clientId);
  }

  /**
   * The loop of setupDemo: insert the five sample leads one by one, in array
   * order, each owned by `clientId`, sample lead `i` at `times[1 + i]`.
   */
  method InsertSampleLeads(db: Store, clientId: nat, times: seq<nat>)
    requires db.Valid() && RunTimestamps(times, db.clock)
    modifies db
    ensures db.Valid() && db.clock == times[|SampleLeads|]
    ensures db.clients == old(db.clients) && db.clientSeq == old(db.clientSeq)
    ensures db.activities == old(db.activities) && db.activitySeq == old(db.activitySeq)
    ensures db.leads == old(db.leads) + DemoLeadRows(clientId, old(db.leadSeq), times)
    ensures db.leadSeq == old(db.leadSeq) + |SampleLeads|
  {
    var rows := DemoLeadRows(clientId, db.leadSeq, times);
    for i := 0 to |SampleLeads|
      invariant db.Valid() && db.clock == if i == 0 then old(db.clock) else times[i]
      invariant db.clients == old(db.clients) && db.clientSeq == old(db.clientSeq)
      invariant db.activities == old(db.activities) && db.activitySeq == old(db.activitySeq)
      invariant db.leadSeq == old(db.leadSeq) + i
      invariant db.leads == old(db.leads) + rows[..i]
    {
      var inserted := db.LeadCreate(Some(clientId), SampleLeads[i], times[1 + i]);
      assert rows[..i + 1] == rows[..i] + [rows[i]];
    }
    assert rows[..|SampleLeads|] == rows;
  }

  /** Running setupDemo twice: the second run finds the demo client and writes nothing. */
  method SetupDemoTwice(db: Store, hash: (string, nat) -> string, times1: seq<nat>, times2: seq<nat>)
    returns (first: Outcome, second: Outcome)
    requires db.Valid() && RunTimestamps(times1, db.clock) && RunTimestamps(times2, times1[|times1| - 1])
    modifies db
    ensures db.Valid()
    ensures second == AlreadyExists
    ensures Count(db.clients, WithEmail(DemoEmail)) == 1
    ensures old(ClientFindByEmail(db.clients, DemoEmail)).None? ==>
      && first == Created(old(db.clientSeq) + 1)
      && db.clients == old(db.clients) + [DemoClientRow(first.clientId, hash(DemoPassword, SaltRounds), times1[0])]
      && db.leads == old(db.leads) + DemoLeadRows(first.clientId, old(db.leadSeq), times1)
    ensures old(ClientFindByEmail(db.clients, DemoEmail)).Some? ==>
      db.clients == old(db.clients) && db.leads == old(db.leads)
  {
    first := SetupDemo(db, hash, times1);
    assert ClientFindByEmail(db.clients, DemoEmail).Some?;
    second := SetupDemo(db, hash, times2);
  }

  /** Each sample lead is stored for the new client, with the next id in turn and the sample's columns. */
  lemma DemoLeadRowsShape(clientId: nat, seqNo: nat, times: seq<nat>)
    requires |times| == 1 + |SampleLeads|
    ensures |DemoLeadRows(clientId, seqNo, times)| == 5
    ensures forall i :: 0 <= i < 5 ==>
      var row := DemoLeadRows(clientId, seqNo, times)[i];
      && row.id == seqNo + i + 1
      && row.cols.clientId == clientId
      && Some(row.cols.name) == SampleLeads[i].name
      && row.cols.status == SampleLeads[i].status
    ensures IdsIncreasing(DemoLeadRows(clientId, seqNo, times))
  {
  }

  /** Count over five rows, unrolled. */
  lemma CountOfFive<C>(s: seq<Row<C>>, p: Row<C> -> bool)
    requires |s| == 5
    ensures Count(s, p) == (if p(s[0]) then 1 else 0) + (if p(s[1]) then 1 else 0) + (if p(s[2]) then 1 else 0)
                         + (if p(s[3]) then 1 else 0) + (if p(s[4]) then 1 else 0)
  {
    var t1 := s[1..];
    var t2 := t1[1..];
    var t3 := t2[1..];
    var t4 := t3[1..];
    assert t4[1..] == [];
    assert t1[0] == s[1] && t2[0] == s[2] && t3[0] == s[3] && t4[0] == s[4];
  }

  /** How many sample leads carry a given status. */
  function SampleStatusCount(status: string): nat {
    (if SampleLeads[0].status == Some(status) then 1 else 0) + (if SampleLeads[1].status == Some(status) then 1 else 0)
    + (if SampleLeads[2].status == Some(status) then 1 else 0) + (if SampleLeads[3].status == Some(status) then 1 else 0)
    + (if SampleLeads[4].status == Some(status) then 1 else 0)
  }

  /** Over the five inserted rows: all are owned by the new client, and those with a status are as many as the samples with it. */
  lemma DemoRowsCounts(clientId: nat, seqNo: nat, times: seq<nat>, status: string)
    requires |times| == 1 + |SampleLeads|
    ensures Count(DemoLeadRows(clientId, seqNo, times), OwnedBy(clientId)) == 5
    ensures Count(DemoLeadRows(clientId, seqNo, times), Both(OwnedBy(clientId), WithStatus(status))) == SampleStatusCount(status)
  {
    var rows := DemoLeadRows(clientId, seqNo, times);
    var owner, hit := OwnedBy(clientId), Both(OwnedBy(clientId), WithStatus(status));
    assert forall i :: 0 <= i < 5 ==> owner(rows[i]);
    assert forall i :: 0 <= i < 5 ==> (hit(rows[i]) <==> SampleLeads[i].status == Some(status));
    CountOfFive(rows, owner);
    CountOfFive(rows, hit);
  }

  /** Leads stored before the seed that none of them names the client contribute nothing to its counts. */
  lemma NoEarlierLeads(leads0: seq<Lead>, clientId: nat, status: string)
    requires LeadFindByClientId(leads0, clientId) == []
    ensures Count(leads0, OwnedBy(clientId)) == 0
    ensures Count(leads0, Both(OwnedBy(clientId), WithStatus(status))) == 0
  {
    assert forall i :: 0 <= i < |leads0| ==> !OwnedBy(clientId)(leads0[i]);
  }

  /** After a fresh seed, every getStats column of the demo client counts the sample leads. */
  lemma DemoStatsColumns(leads0: seq<Lead>, clientId: nat, seqNo: nat, times: seq<nat>, status: string)
    requires |times| == 1 + |SampleLeads|
    requires LeadFindByClientId(leads0, clientId) == []
    ensures LeadGetStats(leads0 + DemoLeadRows(clientId, seqNo, times), clientId).total == 5
    ensures SumWhenStatus(LeadFindByClientId(leads0 + DemoLeadRows(clientId, seqNo, times), clientId), status)
         == Some(SampleStatusCount(status))
  {
    var rows := DemoLeadRows(clientId, seqNo, times);
    var owner, hit := OwnedBy(clientId), Both(OwnedBy(clientId), WithStatus(status));
    assert Count(leads0 + rows, owner) == 5 by {
      NoEarlierLeads(leads0, clientId, status);
      DemoRowsCounts(clientId, seqNo, times, status);
      CountAppend(leads0, rows, owner);
    }
    assert Count(leads0 + rows, hit) == SampleStatusCount(status) by {
      NoEarlierLeads(leads0, clientId, status);
      DemoRowsCounts(clientId, seqNo, times, status);
      CountAppend(leads0, rows, hit);
    }
    StatsAreCounts(leads0 + rows, clientId, status);
  }

  /**
   * After a fresh seed, getStats for the demo client reads total 5, new 2,
   * contacted 1, qualified 1, converted 1 and lost 0, given that no earlier
   * lead already named the new client id as its owner.
   */
  lemma DemoStats(leads0: seq<Lead>, clientId: nat, seqNo: nat, times: seq<nat>)
    requires |times| == 1 + |SampleLeads|
    requires LeadFindByClientId(leads0, clientId) == []
    ensures LeadGetStats(leads0 + DemoLeadRows(clientId, seqNo, times), clientId)
         == Stats(5, Some(2), Some(1), Some(1), Some(1), Some(0))
  {
    DemoStatsColumns(leads0, clientId, seqNo, times, "new");
    DemoStatsColumns(leads0, clientId, seqNo, times, "contacted");
    DemoStatsColumns(leads0, clientId, seqNo, times, "qualified");
    DemoStatsColumns(leads0, clientId, seqNo, times, "converted");
    DemoStatsColumns(leads0, clientId, seqNo, times, "lost");
  }

  /**
   * Seeding a newly created database, whatever the clock reads at each
   * statement: the demo client's getStats reads total 5, new 2, contacted 1,
   * qualified 1, converted 1, lost 0.
   */
  method FreshSeedStats(hash: (string, nat) -> string, times: seq<nat>) returns (s: Stats)
    requires RunTimestamps(times, 0)
    ensures s == Stats(5, Some(2), Some(1), Some(1), Some(1), Some(0))
  {
    var db := new Store();
    var outcome := SetupDemo(db, hash, times);
    s := LeadGetStats(db.leads, outcome.clientId);
  }
}
