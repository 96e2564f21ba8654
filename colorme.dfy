/**
 * "color me <color>": the trace of role lookups, role removals, the role add
 * and the replies that one request produces, as a function of the managed
 * table, the guild and the answers of the remote calls.
 *
 * Go ranges over a map in an unspecified order, fresh for every `range`
 * statement. The handler's inner loop runs once per role the requester holds,
 * so the model takes one enumeration of the table's keys per held role.
 */
module ColorAssignment {
  import opened Text
  import opened Permissions
  import opened Discord
  import opened ManagedRoles

  /** What the remote calls report about the requester and about role changes. */
  datatype Context = Context(guild: Guild, held: seq<RoleId>, responses: Responses)

  /** `order` lists every key of the table exactly once: one map iteration. */
  predicate Enumerates(order: seq<string>, keys: set<string>)
  {
    && (forall i :: 0 <= i < |order| ==> order[i] in keys)
    && (forall k :: k in keys ==> k in order)
    && (forall i, j :: 0 <= i < j < |order| ==> order[i] != order[j])
  }

  /** One iteration order of the table per role the requester holds. */
  predicate ValidOrders(m: Table, ctx: Context, orders: seq<seq<string>>)
  {
    |orders| == |ctx.held| && forall i :: 0 <= i < |orders| ==> Enumerates(orders[i], m.Keys)
  }

  /** The identifiers of the managed names that resolve in the guild. */
  function ManagedIds(m: Table, g: Guild): set<RoleId>
  {
    set r | r in m && m[r] && r in g.roles :: g.roles[r].id
  }

  /** Every managed name resolves to a guild role. */
  predicate Resolves(m: Table, g: Guild)
  {
    forall r :: r in m && m[r] ==> r in g.roles
  }

  /** The held role identifiers among the first `n`. */
  function HeldUpTo(held: seq<RoleId>, n: nat): set<RoleId>
    requires n <= |held|
  {
    set i | 0 <= i < n :: held[i]
  }

  /**
   * The inner loop's body for held role `u` and table key `name`: skip a
   * key that is not managed, look it up (a name that no longer resolves
   * panics on the nil role), and remove `u` when it is that role, reporting
   * a failed removal and going on.
   */
  function ScanName(m: Table, ctx: Context, u: RoleId, color: string, name: string): Outcome
  {
    if !Get(m, name) then Outcome([], false)
    else if name !in ctx.guild.roles then Outcome([LookupRole(name)], true)
    else if ctx.guild.roles[name].id != u then Outcome([LookupRole(name)], false)
    else if u in ctx.responses.removeSucceeds then Outcome([LookupRole(name), RemoveRole(u, true)], false)
    else Outcome([LookupRole(name), RemoveRole(u, false), Send(RemoveFailed(color))], false)
  }

  /** The inner loop over the first `n` keys of `order`, for held role `u`. */
  function ScanRole(m: Table, ctx: Context, u: RoleId, color: string, order: seq<string>, n: nat): Outcome
    requires n <= |order|
  {
    if n == 0 then Outcome([], false)
    else
      var before := ScanRole(m, ctx, u, color, order, n - 1);
      if before.panicked then before
      else
        var step := ScanName(m, ctx, u, color, order[n - 1]);
        Outcome(before.events + step.events, step.panicked)
  }

  /** The outer loop over the first `n` held roles. */
  function ScanHeld(m: Table, ctx: Context, color: string, orders: seq<seq<string>>, n: nat): Outcome
    requires n <= |ctx.held| == |orders|
  {
    if n == 0 then Outcome([], false)
    else
      var before := ScanHeld(m, ctx, color, orders, n - 1);
      if before.panicked then before
      else
        var u, order := ctx.held[n - 1], orders[n - 1];
        var step := ScanRole(m, ctx, u, color, order, |order|);
        Outcome(before.events + step.events, step.panicked)
  }

  /** The whole "color me" request; `parts[0]` is the command word. */
  function ColorMe(m: Table, ctx: Context, parts: seq<string>, orders: seq<seq<string>>): Outcome
    requires |orders| == |ctx.held|
  {
    if |parts| == 1 then Outcome([Send(ForgotColor)], false)
    else if |parts| > 2 then Outcome([Send(TooManyColors)], false)
    else if |parts| == 0 then Outcome([], true)  // parts[1] is out of range
    else
      var color := Lower(parts[1]);
      if color !in ctx.guild.roles then Outcome([LookupRole(color), Send(RoleNotFound(color))], false)
      else
        var role := ctx.guild.roles[color];
        if HasAuth(role.permissions) then Outcome([LookupRole(color), Send(MoreThanColor(color))], false)
        else
          var scan := ScanHeld(m, ctx, color, orders, |orders|);
          if scan.panicked then Outcome([LookupRole(color)] + scan.events, true)
          else
            var ok := ctx.responses.addSucceeds;
            Outcome([LookupRole(color)] + scan.events +
                    [AddRole(role.id, ok), Send(if ok then Granted(color) else AddFailed(color))], false)
  }

  /** The requested role, resolved and without authority: the request goes ahead. */
  predicate Proceeds(ctx: Context, parts: seq<string>)
  {
    |parts| == 2 && Eligible(ctx.guild, Lower(parts[1]))
  }

  // ---------------------------------------------------------------------
  // The inner loop

  /** Some key among the first `n` of `order` is managed and resolves to `u`. */
  ghost predicate MatchesIn(m: Table, g: Guild, u: RoleId, order: seq<string>, n: nat)
    requires n <= |order|
  {
    exists j :: 0 <= j < n && Get(m, order[j]) && order[j] in g.roles && g.roles[order[j]].id == u
  }

  /** Once the inner loop has panicked, later keys change nothing. */
  lemma {:induction false} ScanRoleSticks(m: Table, ctx: Context, u: RoleId, color: string, order: seq<string>, k: nat, n: nat)
    requires k <= n <= |order|
    requires ScanRole(m, ctx, u, color, order, k).panicked
    ensures ScanRole(m, ctx, u, color, order, n) == ScanRole(m, ctx, u, color, order, k)
  {
    if k < n {
      ScanRoleSticks(m, ctx, u, color, order, k, n - 1);
    }
  }

  /** The inner loop panics exactly when it meets a managed name that does not resolve. */
  lemma {:induction false} ScanRolePanics(m: Table, ctx: Context, u: RoleId, color: string, order: seq<string>, n: nat)
    requires n <= |order|
    ensures ScanRole(m, ctx, u, color, order, n).panicked <==>
      exists j :: 0 <= j < n && Get(m, order[j]) && order[j] !in ctx.guild.roles
  {
    if n > 0 {
      ScanRolePanics(m, ctx, u, color, order, n - 1);
    }
  }

  /**
   * The inner loop for held role `u` removes only `u`, and only when some
   * managed name among the keys it visited resolves to `u`; it adds nothing
   * and its only replies report failed removals.
   */
  lemma {:induction false} ScanRoleEvents(m: Table, ctx: Context, u: RoleId, color: string,
                                          order: seq<string>, n: nat)
    requires n <= |order|
    ensures forall e :: e in ScanRole(m, ctx, u, color, order, n).events && e.RemoveRole? ==>
      e.role == u && MatchesIn(m, ctx.guild, u, order, n)
    ensures forall e :: e in ScanRole(m, ctx, u, color, order, n).events ==>
      !e.AddRole? && (e.Send? ==> e.reply == RemoveFailed(color))
  {
    if n > 0 {
      ScanRoleEvents(m, ctx, u, color, order, n - 1);
      assert MatchesIn(m, ctx.guild, u, order, n - 1) ==> MatchesIn(m, ctx.guild, u, order, n);
      var name := order[n - 1];
      if Get(m, name) && name in ctx.guild.roles && ctx.guild.roles[name].id == u {
        assert MatchesIn(m, ctx.guild, u, order, n);
      }
    }
  }

  /**
   * Every failed removal in the trace is followed at once by the reply that
   * reports it for the requested color.
   */
  predicate Reported(events: seq<Event>, color: string)
  {
    forall k :: 0 <= k < |events| && events[k].RemoveRole? && !events[k].ok ==>
      k + 1 < |events| && events[k + 1] == Send(RemoveFailed(color))
  }

  /** Two traces that report their failed removals still do so joined. */
  lemma ReportedAppend(a: seq<Event>, b: seq<Event>, color: string)
    requires Reported(a, color) && Reported(b, color)
    ensures Reported(a + b, color)
  {
    forall k | 0 <= k < |a + b| && (a + b)[k].RemoveRole? && !(a + b)[k].ok
      ensures k + 1 < |a + b| && (a + b)[k + 1] == Send(RemoveFailed(color))
    {
      if k < |a| {
        assert a[k].RemoveRole? && !a[k].ok;
      } else {
        assert b[k - |a|].RemoveRole? && !b[k - |a|].ok;
      }
    }
  }

  /** The inner loop reports each failed removal right after it and goes on. */
  lemma {:induction false} ScanRoleReports(m: Table, ctx: Context, u: RoleId, color: string,
                                           order: seq<string>, n: nat)
    requires n <= |order|
    ensures Reported(ScanRole(m, ctx, u, color, order, n).events, color)
  {
    if n > 0 {
      ScanRoleReports(m, ctx, u, color, order, n - 1);
      var before := ScanRole(m, ctx, u, color, order, n - 1);
      if !before.panicked {
        ReportedAppend(before.events, ScanName(m, ctx, u, color, order[n - 1]).events, color);
      }
    }
  }

  /**
   * When the inner loop for `u` runs to the end of the keys it visited and
   * one of them is a managed name resolving to `u`, it issues the removal of
   * `u`, with the outcome the remote call reports.
   */
  lemma {:induction false} ScanRoleComplete(m: Table, ctx: Context, u: RoleId, color: string,
                                            order: seq<string>, n: nat)
    requires n <= |order|
    requires !ScanRole(m, ctx, u, color, order, n).panicked
    requires MatchesIn(m, ctx.guild, u, order, n)
    ensures RemoveRole(u, u in ctx.responses.removeSucceeds) in ScanRole(m, ctx, u, color, order, n).events
  {
    var name := order[n - 1];
    if Get(m, name) && name in ctx.guild.roles && ctx.guild.roles[name].id == u {
      assert RemoveRole(u, u in ctx.responses.removeSucceeds) in ScanName(m, ctx, u, color, name).events;
    } else {
      ScanRoleComplete(m, ctx, u, color, order, n - 1);
    }
  }

  /** On the requester's roles, one key's step takes away `u` exactly when it is removed successfully. */
  lemma ScanNameEffect(m: Table, ctx: Context, u: RoleId, color: string, name: string, held: set<RoleId>)
    requires !ScanName(m, ctx, u, color, name).panicked
    ensures ApplyEvents(held, ScanName(m, ctx, u, color, name).events) ==
      if Get(m, name) && ctx.guild.roles[name].id == u && u in ctx.responses.removeSucceeds
      then held - {u} else held
  {
    if Get(m, name) && ctx.guild.roles[name].id == u {
      if u in ctx.responses.removeSucceeds {
        ApplyEventsAppend(held, [LookupRole(name)], [RemoveRole(u, true)]);
        assert [LookupRole(name)] + [RemoveRole(u, true)] == [LookupRole(name), RemoveRole(u, true)];
      } else {
        assert ApplyEvents(held, [LookupRole(name), RemoveRole(u, false), Send(RemoveFailed(color))]) == held;
      }
    } else {
      assert NoMembershipCalls(ScanName(m, ctx, u, color, name).events);
    }
  }

  /**
   * On the requester's roles, a completed inner loop for `u` takes away `u`
   * exactly when a managed name resolved to it and the removal succeeded.
   */
  lemma {:induction false} ScanRoleEffect(m: Table, ctx: Context, u: RoleId, color: string,
                                          order: seq<string>, n: nat, held: set<RoleId>)
    requires n <= |order|
    requires !ScanRole(m, ctx, u, color, order, n).panicked
    ensures ApplyEvents(held, ScanRole(m, ctx, u, color, order, n).events) ==
      if u in ctx.responses.removeSucceeds && MatchesIn(m, ctx.guild, u, order, n)
      then held - {u} else held
  {
    if n > 0 {
      var before := ScanRole(m, ctx, u, color, order, n - 1);
      ScanRoleEffect(m, ctx, u, color, order, n - 1, held);
      var name := order[n - 1];
      var step := ScanName(m, ctx, u, color, name);
      ApplyEventsAppend(held, before.events, step.events);
      var mid := ApplyEvents(held, before.events);
      ScanNameEffect(m, ctx, u, color, name, mid);
      if Get(m, name) && name in ctx.guild.roles && ctx.guild.roles[name].id == u {
        assert MatchesIn(m, ctx.guild, u, order, n);
      } else {
        assert MatchesIn(m, ctx.guild, u, order, n) <==> MatchesIn(m, ctx.guild, u, order, n - 1);
      }
    }
  }

  /** Over a whole iteration of the table, matching a managed name is being a managed identifier. */
  lemma MatchesInWhole(m: Table, g: Guild, u: RoleId, order: seq<string>)
    requires Enumerates(order, m.Keys)
    ensures MatchesIn(m, g, u, order, |order|) <==> u in ManagedIds(m, g)
  {
    if u in ManagedIds(m, g) {
      var r :| r in m && m[r] && r in g.roles && g.roles[r].id == u;
      var j :| 0 <= j < |order| && order[j] == r;
    }
  }

  // ---------------------------------------------------------------------
  // The outer loop

  /** Once the outer loop has panicked, later held roles change nothing. */
  lemma {:induction false} ScanHeldSticks(m: Table, ctx: Context, color: string, orders: seq<seq<string>>, k: nat, n: nat)
    requires k <= n <= |ctx.held| == |orders|
    requires ScanHeld(m, ctx, color, orders, k).panicked
    ensures ScanHeld(m, ctx, color, orders, n) == ScanHeld(m, ctx, color, orders, k)
  {
    if k < n {
      ScanHeldSticks(m, ctx, color, orders, k, n - 1);
    }
  }

  /**
   * The outer loop panics exactly when the requester holds a role at all and
   * some managed name no longer resolves: the first pass over the table
   * already meets it.
   */
  lemma {:induction false} ScanHeldPanics(m: Table, ctx: Context, color: string, orders: seq<seq<string>>, n: nat)
    requires n <= |ctx.held|
    requires ValidOrders(m, ctx, orders)
    ensures ScanHeld(m, ctx, color, orders, n).panicked <==> n > 0 && !Resolves(m, ctx.guild)
  {
    if n > 0 {
      ScanHeldPanics(m, ctx, color, orders, n - 1);
      var order := orders[n - 1];
      ScanRolePanics(m, ctx, ctx.held[n - 1], color, order, |order|);
      if !Resolves(m, ctx.guild) {
        var r :| r in m && m[r] && r !in ctx.guild.roles;
        assert Enumerates(order, m.Keys);
        assert r in order;
      }
    }
  }

  /**
   * Over the first `n` held roles, every removal is of one of them that a
   * managed name resolves to; there is no add and no reply but
   * failed-removal reports.
   */
  lemma {:induction false} ScanHeldEvents(m: Table, ctx: Context, color: string, orders: seq<seq<string>>, n: nat)
    requires n <= |ctx.held|
    requires ValidOrders(m, ctx, orders)
    ensures forall e :: e in ScanHeld(m, ctx, color, orders, n).events && e.RemoveRole? ==>
      e.role in HeldUpTo(ctx.held, n) && e.role in ManagedIds(m, ctx.guild)
    ensures forall e :: e in ScanHeld(m, ctx, color, orders, n).events ==>
      !e.AddRole? && (e.Send? ==> e.reply == RemoveFailed(color))
  {
    if n > 0 {
      ScanHeldEvents(m, ctx, color, orders, n - 1);
      var u, order := ctx.held[n - 1], orders[n - 1];
      ScanRoleEvents(m, ctx, u, color, order, |order|);
      MatchesInWhole(m, ctx.guild, u, order);
      assert HeldUpTo(ctx.held, n) == HeldUpTo(ctx.held, n - 1) + {u};
    }
  }

  /**
   * When the outer loop runs to the end of the first `n` held roles, each
   * of them that a managed name resolves to has had its removal issued,
   * whatever became of the removals before it.
   */
  lemma {:induction false} ScanHeldComplete(m: Table, ctx: Context, color: string, orders: seq<seq<string>>, n: nat)
    requires n <= |ctx.held|
    requires ValidOrders(m, ctx, orders)
    requires !ScanHeld(m, ctx, color, orders, n).panicked
    ensures forall i :: 0 <= i < n && ctx.held[i] in ManagedIds(m, ctx.guild) ==>
      RemoveRole(ctx.held[i], ctx.held[i] in ctx.responses.removeSucceeds) in ScanHeld(m, ctx, color, orders, n).events
  {
    if n > 0 {
      ScanHeldComplete(m, ctx, color, orders, n - 1);
      var u, order := ctx.held[n - 1], orders[n - 1];
      var before := ScanHeld(m, ctx, color, orders, n - 1);
      var step := ScanRole(m, ctx, u, color, order, |order|);
      if u in ManagedIds(m, ctx.guild) {
        MatchesInWhole(m, ctx.guild, u, order);
        ScanRoleComplete(m, ctx, u, color, order, |order|);
      }
      forall i | 0 <= i < n && ctx.held[i] in ManagedIds(m, ctx.guild)
        ensures RemoveRole(ctx.held[i], ctx.held[i] in ctx.responses.removeSucceeds) in before.events + step.events
      {
        if i < n - 1 {
          assert RemoveRole(ctx.held[i], ctx.held[i] in ctx.responses.removeSucceeds) in before.events;
        }
      }
    }
  }

  /** Over the first `n` held roles, each failed removal is reported right after it. */
  lemma {:induction false} ScanHeldReports(m: Table, ctx: Context, color: string, orders: seq<seq<string>>, n: nat)
    requires n <= |ctx.held| == |orders|
    ensures Reported(ScanHeld(m, ctx, color, orders, n).events, color)
  {
    if n > 0 {
      ScanHeldReports(m, ctx, color, orders, n - 1);
      var before := ScanHeld(m, ctx, color, orders, n - 1);
      if !before.panicked {
        var order := orders[n - 1];
        ScanRoleReports(m, ctx, ctx.held[n - 1], color, order, |order|);
        ReportedAppend(before.events, ScanRole(m, ctx, ctx.held[n - 1], color, order, |order|).events, color);
      }
    }
  }

  /** Taking away one more held role's worth of removals. */
  lemma RemovedSnoc(held: set<RoleId>, roles: seq<RoleId>, n: nat, ids: set<RoleId>, oks: set<RoleId>)
    requires 0 < n <= |roles|
    ensures var u := roles[n - 1];
      var rest := held - HeldUpTo(roles, n - 1) * ids * oks;
      held - HeldUpTo(roles, n) * ids * oks == if u in oks && u in ids then rest - {u} else rest
  {
    assert HeldUpTo(roles, n) == HeldUpTo(roles, n - 1) + {roles[n - 1]};
  }

  /**
   * On the requester's roles, a completed outer loop over the first `n`
   * held roles takes away exactly those of them that are managed and whose
   * removal succeeds.
   */
  lemma {:induction false} ScanHeldEffect(m: Table, ctx: Context, color: string, orders: seq<seq<string>>,
                                          n: nat, held: set<RoleId>)
    requires n <= |ctx.held|
    requires ValidOrders(m, ctx, orders)
    requires !ScanHeld(m, ctx, color, orders, n).panicked
    ensures ApplyEvents(held, ScanHeld(m, ctx, color, orders, n).events) ==
      held - (HeldUpTo(ctx.held, n) * ManagedIds(m, ctx.guild) * ctx.responses.removeSucceeds)
  {
    if n == 0 {
      assert HeldUpTo(ctx.held, 0) == {};
    } else {
      var before := ScanHeld(m, ctx, color, orders, n - 1);
      ScanHeldEffect(m, ctx, color, orders, n - 1, held);
      var u, order := ctx.held[n - 1], orders[n - 1];
      var step := ScanRole(m, ctx, u, color, order, |order|);
      var mid := ApplyEvents(held, before.events);
      ScanRoleEffect(m, ctx, u, color, order, |order|, mid);
      MatchesInWhole(m, ctx.guild, u, order);
      ApplyEventsAppend(held, before.events, step.events);
      RemovedSnoc(held, ctx.held, n, ManagedIds(m, ctx.guild), ctx.responses.removeSucceeds);
    }
  }


  // ---------------------------------------------------------------------
  // The request

  /**
   * A request with no color, or with more than one, changes no role
   * membership and looks up no role: it gets one error reply.
   */
  lemma ColorMeArgumentErrors(m: Table, ctx: Context, parts: seq<string>, orders: seq<seq<string>>)
    requires |orders| == |ctx.held|
    requires |parts| == 1 || |parts| > 2
    ensures var out := ColorMe(m, ctx, parts, orders);
      && out.events == [Send(if |parts| == 1 then ForgotColor else TooManyColors)]
      && !out.panicked
      && NoMembershipCalls(out.events) && NoLookups(out.events)
  {
  }

  /**
   * A color that does not resolve, or that carries authority bits, is
   * refused after its one lookup, with one reply and no membership change.
   */
  lemma ColorMeRefused(m: Table, ctx: Context, parts: seq<string>, orders: seq<seq<string>>)
    requires |orders| == |ctx.held|
    requires |parts| == 2 && !Eligible(ctx.guild, Lower(parts[1]))
    ensures var out := ColorMe(m, ctx, parts, orders);
      var color := Lower(parts[1]);
      && !out.panicked
      && out.events == [LookupRole(color),
                        Send(if color !in ctx.guild.roles then RoleNotFound(color) else MoreThanColor(color))]
      && NoMembershipCalls(out.events)
  {
  }

  /**
   * A request that goes ahead panics exactly when the requester holds a
   * role and some managed name no longer resolves; a panic issues no add.
   */
  lemma ColorMePanics(m: Table, ctx: Context, parts: seq<string>, orders: seq<seq<string>>)
    requires ValidOrders(m, ctx, orders)
    requires Proceeds(ctx, parts)
    ensures var out := ColorMe(m, ctx, parts, orders);
      && (out.panicked <==> |ctx.held| > 0 && !Resolves(m, ctx.guild))
      && (out.panicked ==> forall e :: e in out.events ==> !e.AddRole?)
  {
    var color := Lower(parts[1]);
    ScanHeldPanics(m, ctx, color, orders, |orders|);
    ScanHeldEvents(m, ctx, color, orders, |orders|);
  }

  /**
   * A request that goes ahead removes only held roles that some managed
   * name resolves to; when it completes, every such held role has had its
   * removal issued, whether or not earlier removals failed.
   */
  lemma ColorMeRemovals(m: Table, ctx: Context, parts: seq<string>, orders: seq<seq<string>>)
    requires ValidOrders(m, ctx, orders)
    requires Proceeds(ctx, parts)
    ensures var out := ColorMe(m, ctx, parts, orders);
      && (forall e :: e in out.events && e.RemoveRole? ==>
            e.role in ctx.held && e.role in ManagedIds(m, ctx.guild))
      && (!out.panicked ==> forall u :: u in ctx.held && u in ManagedIds(m, ctx.guild) ==>
            RemoveRole(u, u in ctx.responses.removeSucceeds) in out.events)
  {
    var color := Lower(parts[1]);
    var n := |orders|;
    ScanHeldEvents(m, ctx, color, orders, n);
    var out := ColorMe(m, ctx, parts, orders);
    var scan := ScanHeld(m, ctx, color, orders, n);
    forall e | e in out.events && e.RemoveRole?
      ensures e.role in ctx.held && e.role in ManagedIds(m, ctx.guild)
    {
      assert e in scan.events;
      var i :| 0 <= i < n && ctx.held[i] == e.role;
    }
    if !out.panicked {
      ScanHeldComplete(m, ctx, color, orders, n);
      forall u | u in ctx.held && u in ManagedIds(m, ctx.guild)
        ensures RemoveRole(u, u in ctx.responses.removeSucceeds) in out.events
      {
        var i :| 0 <= i < n && ctx.held[i] == u;
        assert RemoveRole(u, u in ctx.responses.removeSucceeds) in scan.events;
      }
    }
  }

  /**
   * A request that goes ahead and completes issues exactly one add, for the
   * requested role, after every removal; it confirms the color exactly when
   * the add succeeds.
   */
  lemma ColorMeAddsLast(m: Table, ctx: Context, parts: seq<string>, orders: seq<seq<string>>)
    requires ValidOrders(m, ctx, orders)
    requires Proceeds(ctx, parts)
    requires !ColorMe(m, ctx, parts, orders).panicked
    ensures var out := ColorMe(m, ctx, parts, orders);
      var color := Lower(parts[1]);
      var last := |out.events| - 1;
      && |out.events| >= 3
      && out.events[0] == LookupRole(color)
      && out.events[last - 1] == AddRole(ctx.guild.roles[color].id, ctx.responses.addSucceeds)
      && (forall k :: 0 <= k < |out.events| && k != last - 1 ==> !out.events[k].AddRole?)
      && (forall k :: 0 <= k < |out.events| && out.events[k].RemoveRole? ==> k < last - 1)
      && (out.events[last] == Send(Granted(color)) <==> ctx.responses.addSucceeds)
      && (!ctx.responses.addSucceeds ==> out.events[last] == Send(AddFailed(color)))
  {
    var color := Lower(parts[1]);
    var scan := ScanHeld(m, ctx, color, orders, |orders|);
    ScanHeldEvents(m, ctx, color, orders, |orders|);
    var out := ColorMe(m, ctx, parts, orders);
    forall k | 1 <= k < |out.events| - 2
      ensures out.events[k] == scan.events[k - 1]
    {
    }
    forall k | 1 <= k < |out.events| - 2
      ensures !out.events[k].AddRole?
    {
      assert scan.events[k - 1] in scan.events;
    }
  }

  /**
   * In a request that goes ahead, each failed removal is reported at once
   * and the request goes on, even when it later panics.
   */
  lemma ColorMeReportsFailures(m: Table, ctx: Context, parts: seq<string>, orders: seq<seq<string>>)
    requires |orders| == |ctx.held|
    requires Proceeds(ctx, parts)
    ensures Reported(ColorMe(m, ctx, parts, orders).events, Lower(parts[1]))
  {
    var color := Lower(parts[1]);
    var scan := ScanHeld(m, ctx, color, orders, |orders|);
    ScanHeldReports(m, ctx, color, orders, |orders|);
    ReportedAppend([LookupRole(color)], scan.events, color);
    if !scan.panicked {
      var ok := ctx.responses.addSucceeds;
      ReportedAppend([LookupRole(color)] + scan.events,
                     [AddRole(ctx.guild.roles[color].id, ok), Send(if ok then Granted(color) else AddFailed(color))], color);
    }
  }

  /** The requester's held roles as a set. */
  function HeldSet(ctx: Context): set<RoleId>
  {
    set u | u in ctx.held
  }

  /**
   * The requester's roles after a completed request: the held managed roles
   * whose removal succeeded are gone, and the requested role is added when
   * the add succeeds. With every call succeeding, the requester holds the
   * requested role and no other managed one.
   */
  lemma ColorMeFinalRoles(m: Table, ctx: Context, parts: seq<string>, orders: seq<seq<string>>)
    requires ValidOrders(m, ctx, orders)
    requires Proceeds(ctx, parts)
    requires !ColorMe(m, ctx, parts, orders).panicked
    ensures var out := ColorMe(m, ctx, parts, orders);
      var target := ctx.guild.roles[Lower(parts[1])].id;
      var kept := HeldSet(ctx) - ManagedIds(m, ctx.guild) * ctx.responses.removeSucceeds;
      && ApplyEvents(HeldSet(ctx), out.events) ==
           (if ctx.responses.addSucceeds then kept + {target} else kept)
      && (HeldSet(ctx) <= ctx.responses.removeSucceeds && ctx.responses.addSucceeds ==>
           ApplyEvents(HeldSet(ctx), out.events) * (ManagedIds(m, ctx.guild) + {target}) == {target})
  {
    var color := Lower(parts[1]);
    var n := |orders|;
    var held := HeldSet(ctx);
    var scan := ScanHeld(m, ctx, color, orders, n);
    ScanHeldEffect(m, ctx, color, orders, n, held);
    assert HeldUpTo(ctx.held, n) == held;
    var role := ctx.guild.roles[color];
    var ok := ctx.responses.addSucceeds;
    var tail := [AddRole(role.id, ok), Send(if ok then Granted(color) else AddFailed(color))];
    var out := ColorMe(m, ctx, parts, orders);
    assert out.events == [LookupRole(color)] + scan.events + tail;
    ApplyEventsAppend(held, [LookupRole(color)] + scan.events, tail);
    ApplyEventsAppend(held, [LookupRole(color)], scan.events);
    assert ApplyEvents(held, [LookupRole(color)]) == held;
    ApplyEventsAppend(ApplyEvents(held, [LookupRole(color)] + scan.events), [tail[0]], [tail[1]]);
    assert tail == [tail[0]] + [tail[1]];
  }
}
