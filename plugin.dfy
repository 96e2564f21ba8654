/**
 * The plugin object: its one piece of state is the managed-role table, which
 * the owner's curation commands update in place and "color me" reads.
 */
module Plugin {
  import opened Text
  import opened Permissions
  import opened Discord
  import opened ManagedRoles
  import opened ColorAssignment

  class ColorPlugin {
    /** Lower-cased role name to "managed"; a missing name reads as not managed. */
    var managedRoles: Table

    /** `New`: a plugin that manages no color yet. */
    constructor ()
      ensures managedRoles == map[]
      ensures AllManaged(managedRoles)
    {
      managedRoles := map[];
    }

    /** The managed names, each once, in the table's iteration order. */
    method PrintableRoles() returns (names: seq<string>)
      ensures multiset(names) == multiset(Managed(managedRoles))
    {
      names := [];
      var rest := managedRoles.Keys;
      while rest != {}
        invariant rest <= managedRoles.Keys
        invariant multiset(names) == multiset(Managed(managedRoles) - rest)
        decreases rest
      {
        var role :| role in rest;
        if managedRoles[role] {
          assert Managed(managedRoles) - (rest - {role}) == (Managed(managedRoles) - rest) + {role};
          names := names + [role];
        } else {
          assert Managed(managedRoles) - (rest - {role}) == Managed(managedRoles) - rest;
        }
        rest := rest - {role};
      }
    }

    /**
     * The inner loop of "color me" for held role `userRole`: visit the table
     * in `order`, look up each managed name, and remove the held role where
     * the name resolves to it, reporting failed removals and going on.
     */
    method RemoveIfManaged(ctx: Context, userRole: RoleId, color: string, order: seq<string>)
      returns (events: seq<Event>, panicked: bool)
      ensures Outcome(events, panicked) == ScanRole(managedRoles, ctx, userRole, color, order, |order|)
    {
      events, panicked := [], false;
      var j := 0;
      while j < |order|
        invariant j <= |order|
        invariant Outcome(events, false) == ScanRole(managedRoles, ctx, userRole, color, order, j)
      {
        var r := order[j];
        if r in managedRoles && managedRoles[r] {
          events := events + [LookupRole(r)];
          if r !in ctx.guild.roles {
            // the managed name no longer resolves: the nil role is dereferenced
            panicked := true;
            ScanRoleSticks(managedRoles, ctx, userRole, color, order, j + 1, |order|);
            return;
          }
          if userRole == ctx.guild.roles[r].id {
            var ok := userRole in ctx.responses.removeSucceeds;
            events := events + [RemoveRole(userRole, ok)];
            if !ok {
              events := events + [Send(RemoveFailed(color))];
            }
          }
        }
        j := j + 1;
      }
    }

    /**
     * The outer loop of "color me": for each role the requester holds, in
     * order, run the inner loop with that pass's iteration order of the
     * table; a panic ends the request.
     */
    method RemoveManagedRoles(ctx: Context, color: string, orders: seq<seq<string>>)
      returns (events: seq<Event>, panicked: bool)
      requires |orders| == |ctx.held|
      ensures Outcome(events, panicked) == ScanHeld(managedRoles, ctx, color, orders, |orders|)
    {
      events, panicked := [], false;
      var i := 0;
      while i < |ctx.held|
        invariant i <= |ctx.held|
        invariant Outcome(events, false) == ScanHeld(managedRoles, ctx, color, orders, i)
      {
        var removals;
        removals, panicked := RemoveIfManaged(ctx, ctx.held[i], color, orders[i]);
        events := events + removals;
        if panicked {
          ScanHeldSticks(managedRoles, ctx, color, orders, i + 1, |orders|);
          return;
        }
        i := i + 1;
      }
    }

    /**
     * "color me": validate the one color named, then, for each role the
     * requester holds, scan the table and remove the held role wherever a
     * managed name resolves to it, then add the requested role and reply.
     * `orders[i]` is the table's iteration order while the i-th held role
     * is scanned.
     */
    method HandleColorMe(ctx: Context, parts: seq<string>, orders: seq<seq<string>>)
      returns (events: seq<Event>, panicked: bool)
      requires ValidOrders(managedRoles, ctx, orders)
      ensures Outcome(events, panicked) == ColorMe(managedRoles, ctx, parts, orders)
    {
      events, panicked := [], false;
      if |parts| == 1 {
        events := [Send(ForgotColor)];
        return;
      } else if |parts| > 2 {
        events := [Send(TooManyColors)];
        return;
      }
      if |parts| == 0 {
        panicked := true;  // parts[1] is out of range
        return;
      }
      var color := Lower(parts[1]);
      events := [LookupRole(color)];
      if color !in ctx.guild.roles {
        events := events + [Send(RoleNotFound(color))];
        return;
      }
      var role := ctx.guild.roles[color];
      if HasAuth(role.permissions) {
        events := events + [Send(MoreThanColor(color))];
        return;
      }

      var scanned;
      scanned, panicked := RemoveManagedRoles(ctx, color, orders);
      events := events + scanned;
      if panicked {
        return;
      }

      var ok := ctx.responses.addSucceeds;
      events := events + [AddRole(role.id, ok)];
      if !ok {
        events := events + [Send(AddFailed(color))];
        return;
      }
      events := events + [Send(Granted(color))];
    }

    /**
     * "manage color": for the bot's owner only; each named role that is not yet managed,
     * resolves, and carries no authority bits becomes managed; then the
     * managed names are listed.
     */
    method HandleManageColor(g: Guild, user: UserId, parts: seq<string>)
      returns (events: seq<Event>, panicked: bool)
      modifies this
      ensures user != g.botOwner ==>
        events == [Send(NotOwner)] && !panicked && managedRoles == old(managedRoles)
      ensures user == g.botOwner && |parts| == 0 ==>
        events == [] && panicked && managedRoles == old(managedRoles)
      ensures user == g.botOwner && |parts| == 1 ==>
        events == [Send(ForgotColor)] && !panicked && managedRoles == old(managedRoles)
      ensures user == g.botOwner && |parts| >= 2 ==>
        && !panicked
        && managedRoles == ManageAll(old(managedRoles), g, parts[1..]).table
        && |events| > 0
        && events[..|events| - 1] == ManageAll(old(managedRoles), g, parts[1..]).events
        && ListsManaged(events[|events| - 1], managedRoles)
      ensures AllManaged(old(managedRoles)) ==> AllManaged(managedRoles)
    {
      events, panicked := [], false;
      if user != g.botOwner {
        events := [Send(NotOwner)];
        return;
      }
      if |parts| == 1 {
        events := [Send(ForgotColor)];
        return;
      }
      if |parts| == 0 {
        panicked := true;  // parts[1:] is out of range
        return;
      }

      var colors := parts[1..];
      ghost var start := managedRoles;
      var i := 0;
      while i < |colors|
        invariant i <= |colors|
        invariant ManageAll(start, g, colors[..i]) == Run(managedRoles, events)
      {
        var color := Lower(colors[i]);
        if color in managedRoles && managedRoles[color] {
          events := events + [Send(AlreadyManaging(color))];
        } else {
          events := events + [LookupRole(color)];
          if color !in g.roles {
            events := events + [Send(RoleNotFound(color))];
          } else if HasAuth(g.roles[color].permissions) {
            events := events + [Send(MoreThanColor(color))];
          } else {
            managedRoles := managedRoles[color := true];
          }
        }
        assert colors[..i + 1][..i] == colors[..i];
        i := i + 1;
      }
      assert colors[..i] == colors;
      if AllManaged(start) {
        ManagePreservesAllManaged(start, g, colors);
      }

      var names := PrintableRoles();
      events := events + [Send(NowManaging(names))];
    }

    /**
     * "stop managing": for the bot's owner only; each named role that is managed stops
     * being managed; then the managed names are listed.
     */
    method HandleStopManaging(g: Guild, user: UserId, parts: seq<string>)
      returns (events: seq<Event>, panicked: bool)
      modifies this
      ensures user != g.botOwner ==>
        events == [Send(NotOwner)] && !panicked && managedRoles == old(managedRoles)
      ensures user == g.botOwner && |parts| == 0 ==>
        events == [] && panicked && managedRoles == old(managedRoles)
      ensures user == g.botOwner && |parts| == 1 ==>
        events == [Send(ForgotColor)] && !panicked && managedRoles == old(managedRoles)
      ensures user == g.botOwner && |parts| >= 2 ==>
        && !panicked
        && managedRoles == StopAll(old(managedRoles), parts[1..]).table
        && |events| > 0
        && events[..|events| - 1] == StopAll(old(managedRoles), parts[1..]).events
        && ListsManaged(events[|events| - 1], managedRoles)
      ensures AllManaged(old(managedRoles)) ==> AllManaged(managedRoles)
    {
      events, panicked := [], false;
      if user != g.botOwner {
        events := [Send(NotOwner)];
        return;
      }
      if |parts| == 1 {
        events := [Send(ForgotColor)];
        return;
      }
      if |parts| == 0 {
        panicked := true;  // parts[1:] is out of range
        return;
      }

      var colors := parts[1..];
      ghost var start := managedRoles;
      var i := 0;
      while i < |colors|
        invariant i <= |colors|
        invariant StopAll(start, colors[..i]) == Run(managedRoles, events)
      {
        var color := Lower(colors[i]);
        if !(color in managedRoles && managedRoles[color]) {
          events := events + [Send(NotManaging(color))];
        } else {
          managedRoles := managedRoles - {color};
        }
        assert colors[..i + 1][..i] == colors[..i];
        i := i + 1;
      }
      assert colors[..i] == colors;
      if AllManaged(start) {
        StopPreservesAllManaged(start, colors);
      }

      var names := PrintableRoles();
      events := events + [Send(NowManaging(names))];
    }
  }
}
