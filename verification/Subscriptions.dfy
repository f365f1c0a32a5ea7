/** Subscription rows, webhook events and the background sweep: the state machine behind
    subscription_service.py, subscription_router.py and the sweep loop of startup.py.

    Times are microseconds. Credential and token generation are parameters. */
module Subscriptions {
  import opened Options
  import opened Strings

  const DAY := 86_400_000_000
  const GRACE_PERIOD := 5 * DAY
  const DEMO_PERIOD := 14 * DAY

  datatype Status = Active | PastDue | Suspended | Canceled | Demo

  datatype Row = Row(
    provider: string,
    customerId: Option<string>,
    subscriptionId: Option<string>,
    status: Status,
    currentPeriodEnd: Option<int>,
    gracePeriodEndsAt: Option<int>,
    portalToken: string,
    plan: string,
    maxDevices: int,
    maxTradesPerDay: int
  )

  datatype EventType = PaymentSucceeded | PaymentFailed | SubscriptionCanceled | Unknown

  datatype Event = Event(
    provider: string,
    eventId: string,
    kind: EventType,
    accountId: string,
    customerId: Option<string>,
    subscriptionId: Option<string>,
    currentPeriodEnd: Option<int>
  )

  type EventKey = (string, string)

  function Key(e: Event): EventKey { (e.provider, e.eventId) }

  /** The two tables, and the accounts for which an event issued credentials, and for which a demo
      sign-up issued a key, in order. */
  datatype Db = Db(rows: map<string, Row>, processed: set<EventKey>, issued: seq<string>, demoKeys: seq<string>)

  // ----- events -----

  function Renewed(e: Event, row: Row, freshToken: string): Row {
    row.(provider := e.provider, customerId := e.customerId, subscriptionId := e.subscriptionId,
         status := Active, currentPeriodEnd := e.currentPeriodEnd, gracePeriodEndsAt := None,
         portalToken := if row.portalToken != "" then row.portalToken else freshToken)
  }

  function Failed(row: Row, now: int): Row {
    row.(status := PastDue, gracePeriodEndsAt := Some(now + GRACE_PERIOD))
  }

  /** A first payment inserts a row with the column defaults: the starter plan, 1 device, 10 trades. */
  function Inserted(e: Event, freshToken: string): Row {
    Row(e.provider, e.customerId, e.subscriptionId, Active, e.currentPeriodEnd, None, freshToken, "starter", 1, 10)
  }

  /** `apply_event`. An event without an account is ignored and not recorded. */
  function ApplyEvent(db: Db, e: Event, now: int, freshToken: string): Db {
    var a := e.accountId;
    if a == "" then db
    else
      var done := db.(processed := db.processed + {Key(e)});
      match e.kind
      case PaymentSucceeded =>
        if a in db.rows then done.(rows := db.rows[a := Renewed(e, db.rows[a], freshToken)])
        else done.(rows := db.rows[a := Inserted(e, freshToken)], issued := db.issued + [a])
      case PaymentFailed =>
        if a in db.rows then done.(rows := db.rows[a := Failed(db.rows[a], now)])
        else done
      case SubscriptionCanceled =>
        if a in db.rows then done.(rows := db.rows[a := db.rows[a].(status := Canceled)]) else done
      case Unknown => done
  }

  function MarkStatus(db: Db, a: string, status: Status): Db {
    if a in db.rows then db.(rows := db.rows[a := db.rows[a].(status := status)]) else db
  }

  function ActivateDemo(db: Db, a: string, now: int, freshToken: string): Db {
    var row :=
      if a in db.rows then
        var r := db.rows[a];
        r.(status := Active, plan := "demo", maxDevices := 1, maxTradesPerDay := 5,
           currentPeriodEnd := Some(now + DEMO_PERIOD),
           portalToken := if r.portalToken == "" then freshToken else r.portalToken)
      else Row("demo", None, None, Active, Some(now + DEMO_PERIOD), None, freshToken, "demo", 1, 5);
    db.(rows := db.rows[a := row], demoKeys := db.demoKeys + [a])
  }

  // ----- queries -----

  predicate IsActive(db: Db, a: string, now: int) {
    a in db.rows &&
    (db.rows[a].status == Active ||
     (db.rows[a].status == PastDue && db.rows[a].gracePeriodEndsAt.Some? && now < db.rows[a].gracePeriodEndsAt.value))
  }

  predicate RowLapsed(row: Row, now: int) {
    row.status == PastDue && row.gracePeriodEndsAt.Some? && row.gracePeriodEndsAt.value < now
  }

  predicate Lapsed(db: Db, a: string, now: int) {
    a in db.rows && RowLapsed(db.rows[a], now)
  }

  function GetPlan(db: Db, a: string): string {
    if a !in db.rows then "none"
    else
      var row := db.rows[a];
      var plan := if row.plan == "" then "live" else row.plan;
      match row.status
      case Demo => "demo"
      case Active | PastDue => plan
      case Suspended | Canceled => "none"
  }

  function LowerChar(c: char): char {
    if 'A' <= c <= 'Z' then c + ('a' - 'A') else c
  }

  function Lower(s: string): string {
    seq(|s|, i requires 0 <= i < |s| => LowerChar(s[i]))
  }

  /** In the plan catalogue only the demo plan withholds live trading; an unknown code counts as starter. */
  predicate PlanTradesLive(planCode: string) {
    Strip(Lower(planCode)) != "demo"
  }

  predicate AllowsLiveTrading(db: Db, a: string, now: int) {
    var plan := GetPlan(db, a);
    plan != "none" && (IsActive(db, a, now) || plan == "demo") && PlanTradesLive(plan)
  }

  // ----- the sweep and the router -----

  /** One sweep, taken as one step. */
  function Sweep(db: Db, now: int): Db {
    db.(rows := map a | a in db.rows ::
          if RowLapsed(db.rows[a], now) then db.rows[a].(status := Suspended) else db.rows[a])
  }

  /** The tables together with the accounts that have a registered worker. */
  datatype World = World(db: Db, running: set<string>)

  /** `receive_webhook` after the signature check: deduplicate, apply, then disconnect a worker whose
      account is no longer active. */
  function ReceiveWebhook(w: World, e: Event, now: int, freshToken: string): World {
    if Key(e) in w.db.processed then w
    else
      var db := ApplyEvent(w.db, e, now, freshToken);
      if e.accountId != "" && (e.kind == PaymentFailed || e.kind == SubscriptionCanceled) &&
        !IsActive(db, e.accountId, now)
      then World(db, w.running - {e.accountId})
      else World(db, w.running)
  }

  function SweepWorld(w: World, now: int): World {
    World(Sweep(w.db, now), set a | a in w.running && !Lapsed(w.db, a, now))
  }

  datatype Action =
    | Webhook(event: Event, freshToken: string)
    | DemoSignup(accountId: string, freshToken: string)
    | AdminCancel(accountId: string)
    | Connect(accountId: string)
    | RunSweep

  datatype Op = Op(at: int, action: Action)

  function Step(w: World, op: Op): World {
    match op.action
    case Webhook(e, token) => ReceiveWebhook(w, e, op.at, token)
    case DemoSignup(a, token) => w.(db := ActivateDemo(w.db, a, op.at, token))
    case AdminCancel(a) => if a in w.db.rows then World(MarkStatus(w.db, a, Canceled), w.running - {a}) else w
    case Connect(a) => w.(running := w.running + {a})
    case RunSweep => SweepWorld(w, op.at)
  }

  function Run(w: World, ops: seq<Op>): World
    decreases |ops|
  {
    if ops == [] then w else Run(Step(w, ops[0]), ops[1..])
  }

  // ----- sweeps cannot be observed -----

  predicate Chronological(start: int, ops: seq<Op>)
    decreases |ops|
  {
    ops != [] ==> start <= ops[0].at && Chronological(ops[0].at, ops[1..])
  }

  function WithoutSweeps(ops: seq<Op>): seq<Op> {
    if ops == [] then []
    else if ops[0].action == RunSweep then WithoutSweeps(ops[1..])
    else [ops[0]] + WithoutSweeps(ops[1..])
  }

  function EndTime(start: int, ops: seq<Op>): int
    decreases |ops|
  {
    if ops == [] then start else EndTime(ops[0].at, ops[1..])
  }

  /** A swept row is the unswept one, or its suspended form once the grace period is over. */
  predicate RowSwept(swept: Row, unswept: Row, now: int) {
    swept == unswept || (RowLapsed(unswept, now) && swept == unswept.(status := Suspended))
  }

  ghost predicate Simulates(swept: Db, unswept: Db, now: int) {
    swept.processed == unswept.processed && swept.issued == unswept.issued && swept.demoKeys == unswept.demoKeys &&
    swept.rows.Keys == unswept.rows.Keys &&
    forall a :: a in swept.rows ==> RowSwept(swept.rows[a], unswept.rows[a], now)
  }

  lemma SimulatedEvent(s: Db, t: Db, now: int, e: Event, freshToken: string)
    requires Simulates(s, t, now)
    ensures Simulates(ApplyEvent(s, e, now, freshToken), ApplyEvent(t, e, now, freshToken), now)
  {
  }

  lemma SimulatedChanges(s: Db, t: Db, now: int, a: string, freshToken: string)
    requires Simulates(s, t, now)
    ensures Simulates(ActivateDemo(s, a, now, freshToken), ActivateDemo(t, a, now, freshToken), now)
    ensures Simulates(MarkStatus(s, a, Canceled), MarkStatus(t, a, Canceled), now)
  {
  }

  lemma SimulatedSweep(s: Db, t: Db, now: int)
    requires Simulates(s, t, now)
    ensures Simulates(Sweep(s, now), t, now)
  {
  }

  lemma SimulationStep(s: World, t: World, now: int, op: Op)
    requires Simulates(s.db, t.db, now) && now <= op.at
    ensures op.action == RunSweep ==> Simulates(Step(s, op).db, t.db, op.at)
    ensures op.action != RunSweep ==> Simulates(Step(s, op).db, Step(t, op).db, op.at)
  {
    assert Simulates(s.db, t.db, op.at);
    match op.action
    case Webhook(e, token) => SimulatedEvent(s.db, t.db, op.at, e, token);
    case DemoSignup(a, token) => SimulatedChanges(s.db, t.db, op.at, a, token);
    case AdminCancel(a) => SimulatedChanges(s.db, t.db, op.at, a, "");
    case Connect(a) =>
    case RunSweep => SimulatedSweep(s.db, t.db, op.at);
  }

  lemma {:induction false} SimulationRun(s: World, t: World, now: int, ops: seq<Op>)
    requires Simulates(s.db, t.db, now) && Chronological(now, ops)
    ensures Simulates(Run(s, ops).db, Run(t, WithoutSweeps(ops)).db, EndTime(now, ops))
    decreases |ops|
  {
    if ops != [] {
      SimulationStep(s, t, now, ops[0]);
      if ops[0].action == RunSweep {
        SimulationRun(Step(s, ops[0]), t, ops[0].at, ops[1..]);
      } else {
        SimulationRun(Step(s, ops[0]), Step(t, ops[0]), ops[0].at, ops[1..]);
        assert WithoutSweeps(ops)[1..] == WithoutSweeps(ops[1..]);
      }
    }
  }

  lemma SimulatedQueries(swept: Db, unswept: Db, now: int, later: int, a: string)
    requires Simulates(swept, unswept, now) && now <= later
    ensures IsActive(swept, a, later) == IsActive(unswept, a, later)
    ensures AllowsLiveTrading(swept, a, later) == AllowsLiveTrading(unswept, a, later)
    ensures GetPlan(swept, a) == GetPlan(unswept, a) <==>
      (a in swept.rows ==> swept.rows[a] == unswept.rows[a] || unswept.rows[a].plan == "none")
  {
    if a in swept.rows && swept.rows[a] != unswept.rows[a] && unswept.rows[a].plan == "demo" {
      assert !PlanTradesLive("demo") by {
        assert Lower("demo") == "demo";
      }
    }
  }

  /** Whenever the background sweep runs, and however often, every later `is_active` and
      `allows_live_trading` answers as if it had never run. */
  lemma SweepsAreUnobservable(w: World, start: int, ops: seq<Op>, later: int, a: string)
    requires Chronological(start, ops) && EndTime(start, ops) <= later
    ensures var (swept, unswept) := (Run(w, ops).db, Run(w, WithoutSweeps(ops)).db);
      IsActive(swept, a, later) == IsActive(unswept, a, later) &&
      AllowsLiveTrading(swept, a, later) == AllowsLiveTrading(unswept, a, later)
  {
    SimulationRun(w, w, start, ops);
    SimulatedQueries(Run(w, ops).db, Run(w, WithoutSweeps(ops)).db, EndTime(start, ops), later, a);
  }

  /** The plan itself is not protected in this way: a sweep changes what `get_plan` answers for
      exactly the lapsed accounts whose stored plan is not literally "none". */
  lemma SweepChangesPlanExactly(db: Db, now: int, a: string)
    ensures GetPlan(Sweep(db, now), a) != GetPlan(db, a) <==> Lapsed(db, a, now) && db.rows[a].plan != "none"
  {
  }

  /** A sweep leaves no worker with a lapsed account, and disconnects no other. */
  lemma SweepDisconnectsLapsed(w: World, now: int, a: string)
    ensures var t := SweepWorld(w, now);
      !Lapsed(t.db, a, now) && (a in t.running <==> a in w.running && !Lapsed(w.db, a, now)) &&
      (Lapsed(w.db, a, now) ==> t.db.rows[a].status == Suspended) &&
      (a in w.db.rows && !Lapsed(w.db, a, now) ==> t.db.rows[a] == w.db.rows[a])
  {
  }

  /** On a new PAYMENT_FAILED event the router disconnects a worker exactly when its account has no
      subscription row: with a row, the fresh grace period has just made it active. */
  lemma FailureStopsOnlyUnknownAccounts(w: World, e: Event, now: int, freshToken: string, a: string)
    requires e.kind == PaymentFailed && Key(e) !in w.db.processed
    ensures a in w.running && a !in ReceiveWebhook(w, e, now, freshToken).running
      <==> a in w.running && a == e.accountId && a != "" && a !in w.db.rows
  {
  }

  /** A failed payment leaves an existing account active for five days to the microsecond; the
      sweep takes it only after that instant, so at the instant itself it is neither. */
  lemma GracePeriodExactly(db: Db, e: Event, now: int, freshToken: string, later: int)
    requires e.kind == PaymentFailed && e.accountId != "" && e.accountId in db.rows
    ensures var t := ApplyEvent(db, e, now, freshToken);
      (IsActive(t, e.accountId, later) <==> later - now < 432_000_000_000) &&
      (Lapsed(t, e.accountId, later) <==> later - now > 432_000_000_000)
  {
  }

  // ----- what events write -----

  /** A successful payment makes the account active, for a new account on the starter plan, and leaves
      plan, limits and a set token of an existing one alone. */
  lemma PaymentWrites(db: Db, e: Event, now: int, freshToken: string)
    requires e.kind == PaymentSucceeded && e.accountId != ""
    ensures var (a, t) := (e.accountId, ApplyEvent(db, e, now, freshToken));
      a in t.rows && t.rows - {a} == db.rows - {a} && t.demoKeys == db.demoKeys &&
      var row := t.rows[a];
      row.status == Active && row.gracePeriodEndsAt == None && row.currentPeriodEnd == e.currentPeriodEnd &&
      row.provider == e.provider && row.customerId == e.customerId && row.subscriptionId == e.subscriptionId &&
      if a in db.rows then
        row.plan == db.rows[a].plan && row.maxDevices == db.rows[a].maxDevices &&
        row.maxTradesPerDay == db.rows[a].maxTradesPerDay && t.issued == db.issued &&
        row.portalToken == if db.rows[a].portalToken == "" then freshToken else db.rows[a].portalToken
      else
        row.plan == "starter" && row.maxDevices == 1 && row.maxTradesPerDay == 10 &&
        row.portalToken == freshToken && t.issued == db.issued + [a]
  {
  }

  /** A failed payment makes a known account past due with five days of grace, and changes no other column
      and no unknown account. */
  lemma FailureWrites(db: Db, e: Event, now: int, freshToken: string)
    requires e.kind == PaymentFailed && e.accountId != ""
    ensures var (a, t) := (e.accountId, ApplyEvent(db, e, now, freshToken));
      t.rows.Keys == db.rows.Keys && t.rows - {a} == db.rows - {a} && t.issued == db.issued &&
      t.demoKeys == db.demoKeys &&
      (a in db.rows ==>
        t.rows[a] == db.rows[a].(status := PastDue, gracePeriodEndsAt := Some(now + 432_000_000_000)))
  {
  }

  /** A cancellation changes the status of a known account and nothing else. */
  lemma CancellationWrites(db: Db, e: Event, now: int, freshToken: string)
    requires e.kind == SubscriptionCanceled && e.accountId != ""
    ensures var (a, t) := (e.accountId, ApplyEvent(db, e, now, freshToken));
      t.rows.Keys == db.rows.Keys && t.rows - {a} == db.rows - {a} && t.issued == db.issued &&
      t.demoKeys == db.demoKeys && (a in db.rows ==> t.rows[a] == db.rows[a].(status := Canceled))
  {
  }

  /** Only these three kinds of event, with an account, change a row. */
  lemma OtherEventsWriteNothing(db: Db, e: Event, now: int, freshToken: string)
    requires e.accountId == "" || e.kind == Unknown
    ensures var t := ApplyEvent(db, e, now, freshToken);
      t.rows == db.rows && t.issued == db.issued && t.demoKeys == db.demoKeys &&
      t.processed == (if e.accountId == "" then db.processed else db.processed + {(e.provider, e.eventId)})
  {
  }

  /** A demo sign-up makes the account active at once, for fourteen days on paper, on the demo plan with
      one device and five trades, and keeps a token that is set. */
  lemma SignupWrites(db: Db, a: string, now: int, freshToken: string, later: int)
    ensures var t := ActivateDemo(db, a, now, freshToken);
      a in t.rows && t.rows - {a} == db.rows - {a} && t.processed == db.processed && t.issued == db.issued &&
      var row := t.rows[a];
      row.status == Active && row.plan == "demo" && row.maxDevices == 1 && row.maxTradesPerDay == 5 &&
      row.currentPeriodEnd == Some(now + 1_209_600_000_000) &&
      row.portalToken ==
        (if a in db.rows && db.rows[a].portalToken != "" then db.rows[a].portalToken else freshToken) &&
      IsActive(t, a, later) && !AllowsLiveTrading(t, a, later) && GetPlan(t, a) == "demo"
  {
    assert Lower("demo") == "demo";
    assert !PlanTradesLive("demo");
  }

  // ----- what the queries answer -----

  /** Whether an account may use the platform. */
  lemma ActiveExactly(db: Db, a: string, now: int)
    ensures IsActive(db, a, now) <==>
      a in db.rows &&
      match db.rows[a].status
      case Active => true
      case PastDue => db.rows[a].gracePeriodEndsAt.Some? && now < db.rows[a].gracePeriodEndsAt.value
      case Suspended => false
      case Canceled => false
      case Demo => false
  {
  }

  /** The plan that is reported. */
  lemma PlanExactly(db: Db, a: string)
    ensures GetPlan(db, a) ==
      if a !in db.rows || db.rows[a].status == Suspended || db.rows[a].status == Canceled then "none"
      else if db.rows[a].status == Demo then "demo"
      else if db.rows[a].plan == "" then "live"
      else db.rows[a].plan
  {
  }

  predicate IsLetter(c: char, lower: char, upper: char) { c == lower || c == upper }

  /** The word demo, in any case. */
  predicate IsDemoWord(s: string) {
    |s| == 4 && IsLetter(s[0], 'd', 'D') && IsLetter(s[1], 'e', 'E') && IsLetter(s[2], 'm', 'M') &&
    IsLetter(s[3], 'o', 'O')
  }

  lemma LowerLetter(c: char)
    ensures LowerChar(c) == 'd' <==> IsLetter(c, 'd', 'D')
    ensures LowerChar(c) == 'e' <==> IsLetter(c, 'e', 'E')
    ensures LowerChar(c) == 'm' <==> IsLetter(c, 'm', 'M')
    ensures LowerChar(c) == 'o' <==> IsLetter(c, 'o', 'O')
  {
  }

  lemma LowerDemo(s: string)
    ensures Lower(s) == "demo" <==> IsDemoWord(s)
  {
    var (t, demo) := (Lower(s), "demo");
    if |s| == 4 {
      LowerLetter(s[0]);
      LowerLetter(s[1]);
      LowerLetter(s[2]);
      LowerLetter(s[3]);
      assert t[0] == LowerChar(s[0]) && t[1] == LowerChar(s[1]) && t[2] == LowerChar(s[2]) && t[3] == LowerChar(s[3]);
      assert demo[0] == 'd' && demo[1] == 'e' && demo[2] == 'm' && demo[3] == 'o';
    }
  }

  lemma LowerKeepsSpace(s: string)
    ensures |Lower(s)| == |s| && forall i :: 0 <= i < |s| ==> (IsSpace(Lower(s)[i]) <==> IsSpace(s[i]))
  {
  }

  lemma SpaceInLower(s: string, i: nat, j: nat)
    requires i <= j <= |s|
    ensures |Lower(s)| == |s| && Lower(s)[i..j] == Lower(s[i..j]) && (AllSpace(Lower(s)[i..j]) <==> AllSpace(s[i..j]))
  {
    LowerKeepsSpace(s);
    forall k | 0 <= k < j - i
      ensures IsSpace(Lower(s)[i..j][k]) <==> IsSpace(s[i..j][k])
    {
      assert Lower(s)[i..j][k] == Lower(s)[i + k] && s[i..j][k] == s[i + k];
    }
  }

  /** The word demo stands from i to j, with white space around it. */
  predicate IsDemoAt(plan: string, i: nat, j: nat) {
    i <= j <= |plan| && AllSpace(plan[..i]) && IsDemoWord(plan[i..j]) && AllSpace(plan[j..])
  }

  lemma DemoIsWithheld(plan: string, i: nat, j: nat)
    requires IsDemoAt(plan, i, j)
    ensures !PlanTradesLive(plan)
  {
    var t := Lower(plan);
    SpaceInLower(plan, 0, i);
    SpaceInLower(plan, i, j);
    SpaceInLower(plan, j, |plan|);
    assert t[0..i] == t[..i] && t[j..|plan|] == t[j..] && plan[0..i] == plan[..i] && plan[j..|plan|] == plan[j..];
    LowerDemo(plan[i..j]);
    assert t == t[..i] + t[i..j] + t[j..];
    StripOf(t[..i], t[i..j], t[j..]);
  }

  lemma WithheldIsDemo(plan: string) returns (i: nat, j: nat)
    requires !PlanTradesLive(plan)
    ensures IsDemoAt(plan, i, j)
  {
    var t := Lower(plan);
    var before, after := StripSplits(t);
    i, j := |before|, |t| - |after|;
    assert t[..i] == before && t[i..j] == "demo" && t[j..] == after;
    SpaceInLower(plan, 0, i);
    SpaceInLower(plan, i, j);
    SpaceInLower(plan, j, |plan|);
    assert t[0..i] == t[..i] && t[j..|plan|] == t[j..] && plan[0..i] == plan[..i] && plan[j..|plan|] == plan[j..];
    LowerDemo(plan[i..j]);
  }

  /** A plan code withholds live trading exactly when it is the word demo, in any case and with any white
      space around it. */
  lemma OnlyDemoIsWithheld(plan: string)
    ensures PlanTradesLive(plan) <==> !exists i, j :: IsDemoAt(plan, i, j)
  {
    if !PlanTradesLive(plan) {
      var i, j := WithheldIsDemo(plan);
    }
    if i, j :| IsDemoAt(plan, i, j) {
      DemoIsWithheld(plan, i, j);
    }
  }

  /** Live trading is allowed exactly for active accounts whose stored plan is neither "none" nor a demo
      plan; an empty plan trades live. */
  lemma LiveTradingExactly(db: Db, a: string, now: int)
    ensures AllowsLiveTrading(db, a, now) <==>
      IsActive(db, a, now) && db.rows[a].plan != "none" && (db.rows[a].plan == "" || PlanTradesLive(db.rows[a].plan))
  {
    assert Lower("live") == "live" && Lower("demo") == "demo";
    assert PlanTradesLive("live") && !PlanTradesLive("demo");
  }

  // ----- cancellation -----

  /** Nothing in the run revives the account: no payment, successful or failed, and no sign-up. */
  predicate Revives(op: Op, a: string) {
    match op.action
    case Webhook(e, _) => e.accountId == a && (e.kind == PaymentSucceeded || e.kind == PaymentFailed)
    case DemoSignup(b, _) => b == a
    case AdminCancel(_) => false
    case Connect(_) => false
    case RunSweep => false
  }

  lemma CanceledStep(w: World, op: Op, a: string)
    requires a in w.db.rows && w.db.rows[a].status == Canceled && !Revives(op, a)
    ensures a in Step(w, op).db.rows && Step(w, op).db.rows[a] == w.db.rows[a]
  {
    match op.action
    case Webhook(e, token) =>
    case DemoSignup(_, _) =>
    case AdminCancel(_) =>
    case Connect(_) =>
    case RunSweep =>
  }

  lemma {:induction false} CanceledStays(w: World, ops: seq<Op>, a: string)
    requires a in w.db.rows && w.db.rows[a].status == Canceled && forall op :: op in ops ==> !Revives(op, a)
    ensures a in Run(w, ops).db.rows && Run(w, ops).db.rows[a] == w.db.rows[a]
    decreases |ops|
  {
    if ops != [] {
      assert ops[0] in ops;
      CanceledStep(w, ops[0], a);
      CanceledStays(Step(w, ops[0]), ops[1..], a);
    }
  }

  /** A new cancellation event of a known account disconnects its worker at once and ends its use of the
      platform until it pays, fails to pay or signs up again, whatever else happens. */
  lemma CancellationEnds(w: World, e: Event, now: int, freshToken: string, ops: seq<Op>, later: int)
    requires e.kind == SubscriptionCanceled && e.accountId != "" && e.accountId in w.db.rows
    requires Key(e) !in w.db.processed && forall op :: op in ops ==> !Revives(op, e.accountId)
    ensures var (a, t) := (e.accountId, ReceiveWebhook(w, e, now, freshToken));
      a !in t.running && (forall b :: b != a ==> (b in t.running <==> b in w.running)) &&
      !IsActive(Run(t, ops).db, a, later) && !AllowsLiveTrading(Run(t, ops).db, a, later) &&
      GetPlan(Run(t, ops).db, a) == "none"
  {
    CancellationWrites(w.db, e, now, freshToken);
    CanceledStays(ReceiveWebhook(w, e, now, freshToken), ops, e.accountId);
  }

  /** So does a cancellation by an administrator. */
  lemma AdminCancelEnds(w: World, op: Op, a: string, ops: seq<Op>, later: int)
    requires op.action == AdminCancel(a) && a in w.db.rows && forall o :: o in ops ==> !Revives(o, a)
    ensures a !in Step(w, op).running
    ensures !IsActive(Run(Step(w, op), ops).db, a, later) && !AllowsLiveTrading(Run(Step(w, op), ops).db, a, later)
  {
    CanceledStays(Step(w, op), ops, a);
  }

  /** Other new events disconnect nobody, except a failed payment of an unknown account. */
  lemma OthersKeepTheirWorkers(w: World, e: Event, now: int, freshToken: string)
    requires e.kind == PaymentSucceeded || e.kind == Unknown
    ensures ReceiveWebhook(w, e, now, freshToken).running == w.running
  {
  }

  // ----- repeated deliveries -----

  /** Drops every delivery of an event that was already processed, and the events without an account. */
  function Deduplicated(ops: seq<Op>, seen: set<EventKey>): seq<Op> {
    if ops == [] then []
    else if ops[0].action.Webhook? then
      var e := ops[0].action.event;
      if e.accountId == "" || Key(e) in seen then Deduplicated(ops[1..], seen)
      else [ops[0]] + Deduplicated(ops[1..], seen + {Key(e)})
    else [ops[0]] + Deduplicated(ops[1..], seen)
  }

  /** A run in which the provider repeats deliveries ends in the same state as the run of first deliveries. */
  lemma {:induction false} RepeatsChangeNothing(w: World, ops: seq<Op>)
    ensures Run(w, ops) == Run(w, Deduplicated(ops, w.db.processed))
    decreases |ops|
  {
    if ops != [] {
      var next := Step(w, ops[0]);
      RepeatsChangeNothing(next, ops[1..]);
      ProcessedAfter(w, ops[0]);
      var d := Deduplicated(ops, w.db.processed);
      assert d == Deduplicated(ops[1..], next.db.processed) || d[1..] == Deduplicated(ops[1..], next.db.processed);
    }
  }

  lemma ProcessedAfter(w: World, op: Op)
    ensures Step(w, op).db.processed ==
      if op.action.Webhook? && op.action.event.accountId != "" then w.db.processed + {Key(op.action.event)}
      else w.db.processed
  {
  }

  /** Delivered in a run: an event with an account and this key. */
  predicate Delivers(op: Op, key: EventKey) {
    op.action.Webhook? && op.action.event.accountId != "" && Key(op.action.event) == key
  }

  /** `already_processed` answers yes exactly for the keys recorded before and those of the events with
      an account delivered since; an event without an account is never remembered. */
  lemma {:induction false} ProcessedExactly(w: World, ops: seq<Op>, key: EventKey)
    ensures key in Run(w, ops).db.processed <==>
      key in w.db.processed || exists i :: 0 <= i < |ops| && Delivers(ops[i], key)
    decreases |ops|
  {
    if ops != [] {
      ProcessedAfter(w, ops[0]);
      var rest := ops[1..];
      ProcessedExactly(Step(w, ops[0]), rest, key);
      if i :| 0 <= i < |rest| && Delivers(rest[i], key) {
        assert Delivers(ops[i + 1], key);
      }
      if i :| 0 <= i < |ops| && Delivers(ops[i], key) {
        assert i > 0 ==> Delivers(rest[i - 1], key);
      }
    }
  }

  /** Every first delivery that is kept has a key of its own. */
  lemma {:induction false} DeduplicatedKeysAreNew(ops: seq<Op>, seen: set<EventKey>, i: nat)
    requires i < |Deduplicated(ops, seen)| && Deduplicated(ops, seen)[i].action.Webhook?
    ensures Key(Deduplicated(ops, seen)[i].action.event) !in seen
    ensures forall j :: 0 <= j < i && Deduplicated(ops, seen)[j].action.Webhook? ==>
      Key(Deduplicated(ops, seen)[j].action.event) != Key(Deduplicated(ops, seen)[i].action.event)
  {
    var d := Deduplicated(ops, seen);
    if ops[0].action.Webhook? && (ops[0].action.event.accountId == "" || Key(ops[0].action.event) in seen) {
      DeduplicatedKeysAreNew(ops[1..], seen, i);
    } else if i > 0 {
      var seen' := if ops[0].action.Webhook? then seen + {Key(ops[0].action.event)} else seen;
      assert d[1..] == Deduplicated(ops[1..], seen');
      DeduplicatedKeysAreNew(ops[1..], seen', i - 1);
      assert forall j :: 0 < j <= i ==> d[j] == d[1..][j - 1];
    }
  }

  // ----- credentials -----

  ghost predicate IssuedOnce(db: Db) {
    forall a :: multiset(db.issued)[a] <= 1 && (a in db.issued ==> a in db.rows)
  }

  lemma IssuedOnceStep(w: World, op: Op)
    requires IssuedOnce(w.db)
    ensures IssuedOnce(Step(w, op).db)
  {
    forall a
      ensures multiset(Step(w, op).db.issued)[a] <= 1 && (a in Step(w, op).db.issued ==> a in Step(w, op).db.rows)
    {
      assert a in w.db.issued <==> multiset(w.db.issued)[a] > 0;
      assert multiset(w.db.issued)[a] <= 1;
    }
  }

  /** Over any run, events issue credentials at most once per account. */
  lemma {:induction false} CredentialsIssuedOnce(w: World, ops: seq<Op>)
    requires IssuedOnce(w.db)
    ensures IssuedOnce(Run(w, ops).db)
    decreases |ops|
  {
    if ops != [] {
      IssuedOnceStep(w, ops[0]);
      CredentialsIssuedOnce(Step(w, ops[0]), ops[1..]);
    }
  }

  function SignedUp(ops: seq<Op>): seq<string> {
    if ops == [] then []
    else (if ops[0].action.DemoSignup? then [ops[0].action.accountId] else []) + SignedUp(ops[1..])
  }

  /** Demo sign-ups are not limited in this way: each one issues another key, whatever came before. */
  lemma {:induction false} EverySignupIssuesAKey(w: World, ops: seq<Op>)
    ensures Run(w, ops).db.demoKeys == w.db.demoKeys + SignedUp(ops)
    decreases |ops|
  {
    if ops != [] {
      EverySignupIssuesAKey(Step(w, ops[0]), ops[1..]);
    }
  }

  /** Over any run, a portal token that is set stays, and so does a demo plan. */
  lemma {:induction false} TokenAndDemoAreKept(w: World, ops: seq<Op>, a: string)
    requires a in w.db.rows
    ensures a in Run(w, ops).db.rows
    ensures w.db.rows[a].portalToken != "" ==> Run(w, ops).db.rows[a].portalToken == w.db.rows[a].portalToken
    ensures w.db.rows[a].plan == "demo" ==> Run(w, ops).db.rows[a].plan == "demo"
    decreases |ops|
  {
    if ops != [] {
      TokenAndDemoAreKept(Step(w, ops[0]), ops[1..], a);
    }
  }

  /** What a payment does allow: live trading for a new account, and for an existing one exactly when its
      stored plan trades live. The payment itself makes the account active but leaves the plan alone. */
  lemma PaymentAllowsLiveExactly(db: Db, e: Event, now: int, freshToken: string, later: int)
    requires e.kind == PaymentSucceeded && e.accountId != ""
    ensures AllowsLiveTrading(ApplyEvent(db, e, now, freshToken), e.accountId, later) <==>
      e.accountId !in db.rows ||
      (var plan := db.rows[e.accountId].plan; plan != "none" && (plan == "" || PlanTradesLive(plan)))
  {
    assert Lower("live") == "live" && Lower("starter") == "starter";
    assert PlanTradesLive("live") && PlanTradesLive("starter");
  }

  /** So an account that once signed up for the demo is refused live trading at every later time,
      whatever it pays: no event sets the plan of an existing row. */
  lemma DemoNeverTradesLive(w: World, signup: Op, ops: seq<Op>, a: string, later: int)
    requires signup.action.DemoSignup? && signup.action.accountId == a
    ensures !AllowsLiveTrading(Run(Step(w, signup), ops).db, a, later)
  {
    TokenAndDemoAreKept(Step(w, signup), ops, a);
    assert Lower("demo") == "demo";
    assert !PlanTradesLive("demo");
  }
}
