/** The subscription service, the webhook handler and the sweep as objects that update rows in
    place. Their methods follow the steps of Subscriptions. */
module SubscriptionServices {
  import opened Options
  import opened Subscriptions

  datatype WebhookReply = AlreadyProcessed | Processed

  class SubscriptionService {
    var rows: map<string, Row>
    var processed: set<EventKey>
    ghost var issued: seq<string>
    ghost var demoKeys: seq<string>

    constructor ()
      ensures Tables() == Db(map[], {}, [], [])
    {
      rows, processed, issued, demoKeys := map[], {}, [], [];
    }

    ghost function Tables(): Db
      reads this
    {
      Db(rows, processed, issued, demoKeys)
    }

    method HasProcessed(provider: string, eventId: string) returns (r: bool)
      ensures r <==> (provider, eventId) in Tables().processed
    {
      r := (provider, eventId) in processed;
    }

    /** The credentials are new exactly when the account had no row. */
    method Apply(e: Event, now: int, freshToken: string) returns (newlyIssued: Option<(string, string)>)
      modifies this
      ensures Tables() == ApplyEvent(old(Tables()), e, now, freshToken)
      ensures newlyIssued ==
        if |Tables().issued| > |old(Tables()).issued| then Some((e.accountId, rows[e.accountId].portalToken)) else None
    {
      newlyIssued := None;
      var a := e.accountId;
      if a == "" {
        return;
      }
      match e.kind {
        case PaymentSucceeded =>
          if a in rows {
            rows := rows[a := Renewed(e, rows[a], freshToken)];
          } else {
            rows := rows[a := Inserted(e, freshToken)];
            issued := issued + [a];
            newlyIssued := Some((a, freshToken));
          }
        case PaymentFailed =>
          if a in rows {
            rows := rows[a := Failed(rows[a], now)];
          }
        case SubscriptionCanceled =>
          if a in rows {
            rows := rows[a := rows[a].(status := Canceled)];
          }
        case Unknown =>
      }
      processed := processed + {Key(e)};
    }

    method Mark(a: string, status: Status)
      modifies this
      ensures Tables() == MarkStatus(old(Tables()), a, status)
    {
      if a in rows {
        rows := rows[a := rows[a].(status := status)];
      }
    }

    /** The token returned is the stored one; the key is new at every sign-up. */
    method SignUpForDemo(a: string, now: int, freshToken: string, freshKey: string)
      returns (portalToken: string, apiKey: string)
      modifies this
      ensures Tables() == ActivateDemo(old(Tables()), a, now, freshToken)
      ensures portalToken == rows[a].portalToken && apiKey == freshKey && demoKeys == old(demoKeys) + [a]
    {
      portalToken := freshToken;
      if a in rows {
        var r := rows[a];
        if r.portalToken != "" {
          portalToken := r.portalToken;
        }
        rows := rows[a := r.(status := Active, plan := "demo", maxDevices := 1, maxTradesPerDay := 5,
                             currentPeriodEnd := Some(now + DEMO_PERIOD), portalToken := portalToken)];
      } else {
        rows := rows[a := Row("demo", None, None, Active, Some(now + DEMO_PERIOD), None, portalToken, "demo", 1, 5)];
      }
      apiKey := freshKey;
      demoKeys := demoKeys + [a];
    }

    method CheckActive(a: string, now: int) returns (r: bool)
      ensures r <==> IsActive(Tables(), a, now)
    {
      if a !in rows {
        return false;
      }
      var row := rows[a];
      if row.status == Active {
        return true;
      }
      if row.status == PastDue && row.gracePeriodEndsAt.Some? {
        return now < row.gracePeriodEndsAt.value;
      }
      return false;
    }

    method GetLapsedAccounts(now: int) returns (lapsed: set<string>)
      ensures forall a :: a in lapsed <==> Lapsed(Tables(), a, now)
    {
      lapsed := set a | a in rows && RowLapsed(rows[a], now);
    }
  }

  class SubscriptionControl {
    const subscriptions: SubscriptionService
    var running: set<string>

    constructor (subscriptions: SubscriptionService)
      ensures this.subscriptions == subscriptions && running == {}
    {
      this.subscriptions := subscriptions;
      running := {};
    }

    ghost function View(): World
      reads this, subscriptions
    {
      World(subscriptions.Tables(), running)
    }

    method HandleWebhook(e: Event, now: int, freshToken: string)
      returns (reply: WebhookReply, staged: Option<(string, string)>)
      modifies this, subscriptions
      ensures View() == ReceiveWebhook(old(View()), e, now, freshToken)
      ensures reply == if Key(e) in old(subscriptions.processed) then AlreadyProcessed else Processed
      ensures staged.Some? <==> |subscriptions.issued| > |old(subscriptions.issued)|
    {
      var seen := subscriptions.HasProcessed(e.provider, e.eventId);
      if seen {
        return AlreadyProcessed, None;
      }
      staged := subscriptions.Apply(e, now, freshToken);
      if e.accountId != "" && (e.kind == PaymentFailed || e.kind == SubscriptionCanceled) {
        if e.accountId in running {
          var active := subscriptions.CheckActive(e.accountId, now);
          if !active {
            running := running - {e.accountId};
          }
        }
      }
      reply := Processed;
    }

    /** One iteration of the sweep loop: account by account, disconnect and then suspend. */
    method SweepOnce(now: int)
      modifies this, subscriptions
      ensures View() == SweepWorld(old(View()), now)
    {
      var todo := subscriptions.GetLapsedAccounts(now);
      ghost var (db, lapsed) := (subscriptions.Tables(), todo);
      NothingSuspended(db);
      while todo != {}
        invariant todo <= lapsed && forall a :: a in lapsed ==> a in db.rows
        invariant subscriptions.Tables() == SuspendAll(db, lapsed - todo)
        invariant running == old(running) - (lapsed - todo)
        decreases todo
      {
        var a :| a in todo;
        if a in running {
          running := running - {a};
        }
        SuspendOneMore(db, lapsed - todo, a);
        assert lapsed - (todo - {a}) == lapsed - todo + {a};
        subscriptions.Mark(a, Suspended);
        todo := todo - {a};
      }
      assert lapsed - todo == lapsed;
      assert SuspendAll(db, lapsed).rows == Sweep(db, now).rows;
      assert running == SweepWorld(old(View()), now).running;
    }
  }

  ghost function SuspendAll(db: Db, accounts: set<string>): Db {
    db.(rows := map a | a in db.rows :: if a in accounts then db.rows[a].(status := Suspended) else db.rows[a])
  }

  lemma NothingSuspended(db: Db)
    ensures SuspendAll(db, {}) == db
  {
    assert SuspendAll(db, {}).rows == db.rows;
  }

  lemma SuspendOneMore(db: Db, accounts: set<string>, a: string)
    requires a in db.rows
    ensures MarkStatus(SuspendAll(db, accounts), a, Suspended) == SuspendAll(db, accounts + {a})
  {
    assert MarkStatus(SuspendAll(db, accounts), a, Suspended).rows == SuspendAll(db, accounts + {a}).rows;
  }
}
