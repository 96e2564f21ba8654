/**
 * The Discord permission bits that make a role "more than just a colored
 * role". The plugin refuses to start managing a role whose permission word
 * shares any bit with this mask, and refuses to hand out such a role.
 *
 * Discord permission words are Go `int`s (64 bits, two's complement); they are
 * modelled by their bit pattern as a `bv64`.
 */
module Permissions {

  /** The fourteen capabilities the plugin treats as real server power. */
  datatype Flag =
    | KickMembers
    | BanMembers
    | Administrator
    | ManageChannels
    | ManageGuild
    | ViewAuditLog
    | ManageMessages
    | MuteMembers
    | DeafenMembers
    | MoveMembers
    | ManageNicknames
    | ManageRoles
    | ManageWebhooks
    | ManageEmojis

  /** The Discord bit of each capability. */
  function Bit(f: Flag): bv64
  {
    match f
    case KickMembers => 0x00000002
    case BanMembers => 0x00000004
    case Administrator => 0x00000008
    case ManageChannels => 0x00000010
    case ManageGuild => 0x00000020
    case ViewAuditLog => 0x00000080
    case ManageMessages => 0x00002000
    case MuteMembers => 0x00400000
    case DeafenMembers => 0x00800000
    case MoveMembers => 0x01000000
    case ManageNicknames => 0x08000000
    case ManageRoles => 0x10000000
    case ManageWebhooks => 0x20000000
    case ManageEmojis => 0x40000000
  }

  /** The mask as the source spells it: the fourteen bits or-ed together. */
  const AuthPermissions: bv64 :=
    0x00000002 | 0x00000004 | 0x00000008 | 0x00000010 | 0x00000020 |
    0x00000080 | 0x00002000 | 0x00400000 | 0x00800000 | 0x01000000 |
    0x08000000 | 0x10000000 | 0x20000000 | 0x40000000

  /**
   * `permissions & authPermissions > 0`. The mask leaves the sign bit clear,
   * so the conjunction is never negative and "> 0" is "not zero".
   */
  predicate HasAuth(permissions: bv64)
  {
    permissions & AuthPermissions != 0
  }

  /** Every flag's bit is a single bit, and it lies inside the mask. */
  lemma FlagInMask(f: Flag)
    ensures Bit(f) != 0 && Bit(f) & (Bit(f) - 1) == 0
    ensures Bit(f) & AuthPermissions == Bit(f)
  {
  }

  /** The mask misses a permission word exactly when each of its bits does. */
  lemma MaskSplit(p: bv64)
    ensures p & AuthPermissions == 0 <==>
      p & 0x00000002 == 0 && p & 0x00000004 == 0 && p & 0x00000008 == 0 &&
      p & 0x00000010 == 0 && p & 0x00000020 == 0 && p & 0x00000080 == 0 &&
      p & 0x00002000 == 0 && p & 0x00400000 == 0 && p & 0x00800000 == 0 &&
      p & 0x01000000 == 0 && p & 0x08000000 == 0 && p & 0x10000000 == 0 &&
      p & 0x20000000 == 0 && p & 0x40000000 == 0
  {
  }

  /** A permission word that misses the mask grants none of the capabilities. */
  lemma NoAuthNoFlag(p: bv64, f: Flag)
    requires !HasAuth(p)
    ensures p & Bit(f) == 0
  {
    MaskSplit(p);
    match f
    case KickMembers =>
    case BanMembers =>
    case Administrator =>
    case ManageChannels =>
    case ManageGuild =>
    case ViewAuditLog =>
    case ManageMessages =>
    case MuteMembers =>
    case DeafenMembers =>
    case MoveMembers =>
    case ManageNicknames =>
    case ManageRoles =>
    case ManageWebhooks =>
    case ManageEmojis =>
  }

  /** A permission word that meets the mask grants one of the capabilities. */
  lemma AuthFlag(p: bv64) returns (f: Flag)
    requires HasAuth(p)
    ensures p & Bit(f) != 0
  {
    MaskSplit(p);
    if p & 0x00000002 != 0 { f := KickMembers; }
    else if p & 0x00000004 != 0 { f := BanMembers; }
    else if p & 0x00000008 != 0 { f := Administrator; }
    else if p & 0x00000010 != 0 { f := ManageChannels; }
    else if p & 0x00000020 != 0 { f := ManageGuild; }
    else if p & 0x00000080 != 0 { f := ViewAuditLog; }
    else if p & 0x00002000 != 0 { f := ManageMessages; }
    else if p & 0x00400000 != 0 { f := MuteMembers; }
    else if p & 0x00800000 != 0 { f := DeafenMembers; }
    else if p & 0x01000000 != 0 { f := MoveMembers; }
    else if p & 0x08000000 != 0 { f := ManageNicknames; }
    else if p & 0x10000000 != 0 { f := ManageRoles; }
    else if p & 0x20000000 != 0 { f := ManageWebhooks; }
    else { f := ManageEmojis; }
  }

  /**
   * The predicate against its reference reading: a role is authoritative
   * exactly when it grants at least one of the fourteen capabilities.
   */
  lemma HasAuthIff(permissions: bv64)
    ensures HasAuth(permissions) <==> exists f: Flag :: permissions & Bit(f) != 0
  {
    if HasAuth(permissions) {
      var f := AuthFlag(permissions);
    } else {
      forall f: Flag ensures permissions & Bit(f) == 0 {
        NoAuthNoFlag(permissions, f);
      }
    }
  }

  /**
   * Concrete readings: create-invite (0x1) and add-reactions (0x40) alone are
   * cosmetic; administrator (0x8) and manage-roles (0x10000000) are not.
   */
  lemma AuthExamples()
    ensures !HasAuth(0x1) && !HasAuth(0x40) && !HasAuth(0x0)
    ensures HasAuth(0x8) && HasAuth(0x10000000)
    ensures !HasAuth(0x1 | 0x40 | 0x400 | 0x800)
  {
  }
}
