/**
 * Worked requests on a small guild, evaluated on the model.
 */
module Scenarios {
  import opened Text
  import opened Discord
  import opened ManagedRoles
  import opened ColorAssignment

  /** A guild with two plain color roles and an administrative one. */
  const Rainbow: Guild := Guild("owner", map[
    "red" := Role("r1", 0x0),
    "blue" := Role("b1", 0x40),
    "admin" := Role("a1", 0x10000000)])

  /**
   * On an empty table the owner runs "manage color Red Blue": both roles
   * become managed, after one lookup each, and nothing else is reported.
   */
  lemma ManageRedBlue()
    ensures ManageAll(map[], Rainbow, ["Red", "Blue"]) ==
      Run(map["red" := true, "blue" := true], [LookupRole("red"), LookupRole("blue")])
  {
    assert Lower("Red") == "red";
    assert Lower("Blue") == "blue";
    assert ["Red", "Blue"][..1] == ["Red"];
  }

  /** Naming an already managed color again, in any case, is only reported. */
  lemma ManageRedTwice()
    ensures ManageAll(map[], Rainbow, ["red", "RED"]) ==
      Run(map["red" := true], [LookupRole("red"), Send(AlreadyManaging("red"))])
  {
    assert Lower("red") == "red";
    assert Lower("RED") == "red";
    assert ["red", "RED"][..1] == ["red"];
  }

  /** The administrative role is refused and the table is unchanged. */
  lemma ManageAdmin()
    ensures ManageAll(map[], Rainbow, ["Admin"]) ==
      Run(map[], [LookupRole("admin"), Send(MoreThanColor("admin"))])
  {
    assert Lower("Admin") == "admin";
  }

  /**
   * A member holding the managed role "red" asks for blue: red is removed,
   * blue is added, and the color is confirmed.
   */
  lemma RedToBlue()
    ensures ColorMe(map["red" := true], Context(Rainbow, ["r1"], Responses({"r1"}, true)),
                    ["me", "Blue"], [["red"]]) ==
      Outcome([LookupRole("blue"), LookupRole("red"), RemoveRole("r1", true),
               AddRole("b1", true), Send(Granted("blue"))], false)
  {
    assert Lower("Blue") == "blue";
  }

  /** Asking for the administrative role is refused with no membership change. */
  lemma ColorMeAdmin()
    ensures ColorMe(map["red" := true], Context(Rainbow, ["r1"], Responses({"r1"}, true)),
                    ["me", "admin"], [["red"]]) ==
      Outcome([LookupRole("admin"), Send(MoreThanColor("admin"))], false)
  {
    assert Lower("admin") == "admin";
  }

  /** A managed name that no longer resolves makes the request panic before the add. */
  lemma StaleManagedName()
    ensures ColorMe(map["gone" := true], Context(Rainbow, ["r1"], Responses({"r1"}, true)),
                    ["me", "red"], [["gone"]]) ==
      Outcome([LookupRole("red"), LookupRole("gone")], true)
  {
    assert Lower("red") == "red";
  }
}
