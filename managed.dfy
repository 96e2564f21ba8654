/**
 * The table of managed color roles (lower-cased role name to flag) and what
 * the owner's two curation commands, "manage color" and "stop managing", do
 * to it, argument by argument.
 */
module ManagedRoles {
  import opened Text
  import opened Discord

  type Table = map<string, bool>

  /** A table together with the events that produced it. */
  datatype Run = Run(table: Table, events: seq<Event>)

  /** The names the table marks as managed. */
  function Managed(m: Table): set<string>
  {
    set k | k in m && m[k]
  }

  /** The confirmation every curation command ends with: the managed names, each once. */
  predicate ListsManaged(e: Event, m: Table)
  {
    e.Send? && e.reply.NowManaging? && multiset(e.reply.names) == multiset(Managed(m))
  }

  /** Every stored flag is `true`: the shape of every table the plugin reaches. */
  ghost predicate AllManaged(m: Table)
  {
    forall k :: k in m ==> m[k]
  }

  /** The folded forms of the command's arguments. */
  function Lowered(colors: seq<string>): set<string>
  {
    set c | c in colors :: Lower(c)
  }

  /** "manage color" on one folded name. */
  function ManageOne(m: Table, g: Guild, color: string): Run
  {
    if Get(m, color) then Run(m, [Send(AlreadyManaging(color))])
    else if color !in g.roles then Run(m, [LookupRole(color), Send(RoleNotFound(color))])
    else if !Eligible(g, color) then Run(m, [LookupRole(color), Send(MoreThanColor(color))])
    else Run(m[color := true], [LookupRole(color)])
  }

  /** "manage color" on the arguments in order, each folded first. */
  function ManageAll(m: Table, g: Guild, colors: seq<string>): Run
  {
    if colors == [] then Run(m, [])
    else
      var before := ManageAll(m, g, colors[..|colors| - 1]);
      var step := ManageOne(before.table, g, Lower(colors[|colors| - 1]));
      Run(step.table, before.events + step.events)
  }

  /** "stop managing" on one folded name. */
  function StopOne(m: Table, color: string): Run
  {
    if !Get(m, color) then Run(m, [Send(NotManaging(color))])
    else Run(m - {color}, [])
  }

  /** "stop managing" on the arguments in order, each folded first. */
  function StopAll(m: Table, colors: seq<string>): Run
  {
    if colors == [] then Run(m, [])
    else
      var before := StopAll(m, colors[..|colors| - 1]);
      var step := StopOne(before.table, Lower(colors[|colors| - 1]));
      Run(step.table, before.events + step.events)
  }

  /** The names a batch of arguments adds: folded, resolvable and without authority. */
  function Additions(g: Guild, colors: seq<string>): map<string, bool>
  {
    map k | k in Lowered(colors) && Eligible(g, k) :: true
  }

  lemma LoweredSnoc(colors: seq<string>)
    requires colors != []
    ensures Lowered(colors) ==
      Lowered(colors[..|colors| - 1]) + {Lower(colors[|colors| - 1])}
  {
    var init := colors[..|colors| - 1];
    assert colors == init + [colors[|colors| - 1]];
  }

  lemma AdditionsSnoc(g: Guild, colors: seq<string>)
    requires colors != []
    ensures var c := Lower(colors[|colors| - 1]);
      Additions(g, colors) ==
        if Eligible(g, c) then Additions(g, colors[..|colors| - 1])[c := true]
        else Additions(g, colors[..|colors| - 1])
  {
    LoweredSnoc(colors);
  }

  /** One argument's step on a table that already carries some additions. */
  lemma ManageOneOnto(m: Table, added: Table, g: Guild, c: string)
    requires forall k :: k in added ==> added[k]
    ensures ManageOne(m + added, g, c).table ==
      m + (if Eligible(g, c) then added[c := true] else added)
  {
    var before := m + added;
    if Eligible(g, c) {
      assert m + added[c := true] == before[c := true];
      if Get(before, c) {
        assert before[c := true] == before;
      }
    }
  }

  /**
   * Order does not matter to the table: "manage color" adds exactly the
   * eligible folded arguments, marked `true`, on top of what was there.
   */
  lemma {:induction false} ManageAllTable(m: Table, g: Guild, colors: seq<string>)
    ensures ManageAll(m, g, colors).table == m + Additions(g, colors)
  {
    if colors == [] {
      assert Additions(g, colors) == map[];
    } else {
      var init := colors[..|colors| - 1];
      ManageAllTable(m, g, init);
      AdditionsSnoc(g, colors);
      ManageOneOnto(m, Additions(g, init), g, Lower(colors[|colors| - 1]));
    }
  }

  /**
   * The effect of an owner's "manage color", key by key: each eligible
   * argument is managed afterwards, nothing else is added, and an existing
   * entry changes only by becoming `true`.
   */
  lemma ManageAllEffect(m: Table, g: Guild, colors: seq<string>)
    ensures forall c :: c in colors && Eligible(g, Lower(c)) ==>
      Get(ManageAll(m, g, colors).table, Lower(c))
    ensures forall k :: k in ManageAll(m, g, colors).table ==>
      k in m || (k in Lowered(colors) && Eligible(g, k))
    ensures forall k :: k in m ==>
      (k in ManageAll(m, g, colors).table &&
       (ManageAll(m, g, colors).table[k] == m[k] || (k in Lowered(colors) && Eligible(g, k))))
  {
    ManageAllTable(m, g, colors);
  }

  /**
   * A name that is already managed when its turn comes, whether from before
   * the command or from an earlier duplicate argument, is only reported.
   */
  lemma ManageAlreadyManaged(m: Table, g: Guild, colors: seq<string>, j: nat)
    requires j < |colors|
    requires Get(m, Lower(colors[j])) ||
      exists i :: 0 <= i < j && Lower(colors[i]) == Lower(colors[j]) && Eligible(g, Lower(colors[j]))
    ensures ManageAll(m, g, colors[..j + 1]) ==
      Run(ManageAll(m, g, colors[..j]).table,
          ManageAll(m, g, colors[..j]).events + [Send(AlreadyManaging(Lower(colors[j])))])
  {
    var prefix := colors[..j + 1];
    assert prefix[..|prefix| - 1] == colors[..j];
    ManageAllTable(m, g, colors[..j]);
    if !Get(m, Lower(colors[j])) {
      var i :| 0 <= i < j && Lower(colors[i]) == Lower(colors[j]) && Eligible(g, Lower(colors[j]));
      assert colors[..j][i] == colors[i];
      assert Lower(colors[j]) in Lowered(colors[..j]);
    }
  }

  /**
   * An argument that is not managed when its turn comes and that does not
   * resolve, or resolves to a role with authority bits, is looked up,
   * reported and skipped.
   */
  lemma ManageRefused(m: Table, g: Guild, colors: seq<string>, j: nat)
    requires j < |colors|
    requires !Get(ManageAll(m, g, colors[..j]).table, Lower(colors[j]))
    requires !Eligible(g, Lower(colors[j]))
    ensures var c := Lower(colors[j]);
      ManageAll(m, g, colors[..j + 1]) ==
        Run(ManageAll(m, g, colors[..j]).table,
            ManageAll(m, g, colors[..j]).events +
              [LookupRole(c), Send(if c !in g.roles then RoleNotFound(c) else MoreThanColor(c))])
  {
    var prefix := colors[..j + 1];
    assert prefix[..|prefix| - 1] == colors[..j];
  }

  /**
   * An argument that is not managed when its turn comes and resolves to a
   * role without authority bits is looked up and becomes managed, silently.
   */
  lemma ManageAccepted(m: Table, g: Guild, colors: seq<string>, j: nat)
    requires j < |colors|
    requires !Get(ManageAll(m, g, colors[..j]).table, Lower(colors[j]))
    requires Eligible(g, Lower(colors[j]))
    ensures var c := Lower(colors[j]);
      ManageAll(m, g, colors[..j + 1]) ==
        Run(ManageAll(m, g, colors[..j]).table[c := true],
            ManageAll(m, g, colors[..j]).events + [LookupRole(c)])
  {
    var prefix := colors[..j + 1];
    assert prefix[..|prefix| - 1] == colors[..j];
  }

  /** The names listed after "manage color": the old managed names plus the eligible arguments. */
  lemma ManageAllManaged(m: Table, g: Guild, colors: seq<string>)
    ensures Managed(ManageAll(m, g, colors).table) ==
      Managed(m) + set k | k in Lowered(colors) && Eligible(g, k)
  {
    ManageAllTable(m, g, colors);
  }

  /** "manage color" looks up only its folded arguments and never touches membership. */
  lemma {:induction false} ManageAllEvents(m: Table, g: Guild, colors: seq<string>)
    ensures NoMembershipCalls(ManageAll(m, g, colors).events)
    ensures forall e :: e in ManageAll(m, g, colors).events && e.LookupRole? ==>
      e.name in Lowered(colors)
  {
    if colors != [] {
      ManageAllEvents(m, g, colors[..|colors| - 1]);
      LoweredSnoc(colors);
    }
  }

  /** "manage color" writes only `true`, so a table of managed names stays one. */
  lemma ManagePreservesAllManaged(m: Table, g: Guild, colors: seq<string>)
    requires AllManaged(m)
    ensures AllManaged(ManageAll(m, g, colors).table)
  {
    ManageAllTable(m, g, colors);
  }

  /** What "stop managing" leaves of the table: it drops exactly the managed arguments. */
  function Remaining(m: Table, colors: seq<string>): Table
  {
    map k | k in m && !(k in Lowered(colors) && m[k]) :: m[k]
  }

  /** Order does not matter to the table: "stop managing" drops the managed arguments. */
  lemma {:induction false} StopAllTable(m: Table, colors: seq<string>)
    ensures StopAll(m, colors).table == Remaining(m, colors)
  {
    if colors == [] {
      assert Remaining(m, colors) == m;
    } else {
      var init := colors[..|colors| - 1];
      StopAllTable(m, init);
      LoweredSnoc(colors);
      var after := StopAll(m, colors).table;
      assert after.Keys == Remaining(m, colors).Keys;
    }
  }

  /**
   * The effect of an owner's "stop managing", key by key: no argument is
   * managed afterwards and every other entry is untouched; on a table of
   * managed names, the arguments are simply removed.
   */
  lemma StopAllEffect(m: Table, colors: seq<string>)
    ensures forall c :: c in colors ==> !Get(StopAll(m, colors).table, Lower(c))
    ensures forall k :: k in m && k !in Lowered(colors) ==>
      k in StopAll(m, colors).table && StopAll(m, colors).table[k] == m[k]
    ensures StopAll(m, colors).table.Keys <= m.Keys
    ensures AllManaged(m) ==> StopAll(m, colors).table == m - Lowered(colors)
  {
    StopAllTable(m, colors);
    if AllManaged(m) {
      assert Remaining(m, colors).Keys == (m - Lowered(colors)).Keys;
    }
  }

  /**
   * "stop managing" performs no role lookup: its only events are
   * "not managing" replies, one per argument that was not managed when its
   * turn came.
   */
  lemma {:induction false} StopAllEvents(m: Table, colors: seq<string>)
    ensures forall e :: e in StopAll(m, colors).events ==>
      e.Send? && e.reply.NotManaging? && e.reply.name in Lowered(colors)
    ensures |StopAll(m, colors).events| <= |colors|
  {
    if colors != [] {
      StopAllEvents(m, colors[..|colors| - 1]);
      LoweredSnoc(colors);
    }
  }

  /**
   * An argument that is not managed when its turn comes, never managed or
   * already dropped by an earlier duplicate, gets a "not managing" reply and
   * leaves the table as it is.
   */
  lemma StopNotManaged(m: Table, colors: seq<string>, j: nat)
    requires j < |colors|
    requires !Get(StopAll(m, colors[..j]).table, Lower(colors[j]))
    ensures StopAll(m, colors[..j + 1]) ==
      Run(StopAll(m, colors[..j]).table,
          StopAll(m, colors[..j]).events + [Send(NotManaging(Lower(colors[j])))])
  {
    var prefix := colors[..j + 1];
    assert prefix[..|prefix| - 1] == colors[..j];
  }

  /** An argument that is managed when its turn comes is deleted, silently. */
  lemma StopManagedName(m: Table, colors: seq<string>, j: nat)
    requires j < |colors|
    requires Get(StopAll(m, colors[..j]).table, Lower(colors[j]))
    ensures StopAll(m, colors[..j + 1]) ==
      Run(StopAll(m, colors[..j]).table - {Lower(colors[j])}, StopAll(m, colors[..j]).events)
  {
    var prefix := colors[..j + 1];
    assert prefix[..|prefix| - 1] == colors[..j];
  }

  /** The names listed after "stop managing": the old managed names minus the arguments. */
  lemma StopAllManaged(m: Table, colors: seq<string>)
    ensures Managed(StopAll(m, colors).table) == Managed(m) - Lowered(colors)
  {
    StopAllTable(m, colors);
  }

  /** "stop managing" only deletes, so a table of managed names stays one. */
  lemma StopPreservesAllManaged(m: Table, colors: seq<string>)
    requires AllManaged(m)
    ensures AllManaged(StopAll(m, colors).table)
  {
    StopAllTable(m, colors);
  }

  /**
   * Managing a batch of names and then stopping them leaves a table of
   * managed names without any of them, and otherwise as it was.
   */
  lemma ManageThenStop(m: Table, g: Guild, colors: seq<string>)
    requires AllManaged(m)
    ensures StopAll(ManageAll(m, g, colors).table, colors).table == m - Lowered(colors)
  {
    var managed := ManageAll(m, g, colors).table;
    ManageAllTable(m, g, colors);
    ManagePreservesAllManaged(m, g, colors);
    StopAllEffect(managed, colors);
    assert (managed - Lowered(colors)).Keys == (m - Lowered(colors)).Keys;
  }

  /** An owner's curation command that got past the argument checks. */
  datatype Curation =
    | ManageColor(guild: Guild, colors: seq<string>)
    | StopManaging(colors: seq<string>)

  /** The table after a sequence of curation commands. */
  function Replay(m: Table, commands: seq<Curation>): Table
  {
    if commands == [] then m
    else
      var before := Replay(m, commands[..|commands| - 1]);
      match commands[|commands| - 1]
      case ManageColor(g, colors) => ManageAll(before, g, colors).table
      case StopManaging(colors) => StopAll(before, colors).table
  }

  /**
   * The table only ever holds `true`: from the empty table of a new plugin,
   * any sequence of curation commands reaches a table of managed names.
   */
  lemma {:induction false} ReplayAllManaged(commands: seq<Curation>)
    ensures AllManaged(Replay(map[], commands))
  {
    if commands != [] {
      var init := commands[..|commands| - 1];
      ReplayAllManaged(init);
      match commands[|commands| - 1]
      case ManageColor(g, colors) => ManagePreservesAllManaged(Replay(map[], init), g, colors);
      case StopManaging(colors) => StopPreservesAllManaged(Replay(map[], init), colors);
    }
  }
}
