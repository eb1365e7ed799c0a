/**
 * The chat platform as the time clock sees it: numeric identifiers and a
 * snapshot of what the bot's cache can resolve, and the display name a
 * finished record is filed under.
 */
module Platform {
  import opened Wrappers
  import opened Decimal

  type UserId = nat
  type ChannelId = nat
  type GuildId = nat
  type MessageId = nat

  /**
   * What the bot's cache resolves at the moment a record is written:
   * the guild text channels it can see (with their guild), the members of
   * each guild by display name, and users by global name. A channel that
   * is missing, is not a text channel or has no guild is simply absent.
   */
  datatype Directory = Directory(
    textChannels: map<ChannelId, GuildId>,
    members: map<(GuildId, UserId), string>,
    users: map<UserId, string>)

  const FALLBACK_PREFIX: string := "Usuário ID: "

  /** The synthetic label used when no lookup succeeds. */
  function FallbackLabel(user: UserId): string {
    FALLBACK_PREFIX + FromNat(user)
  }

  /**
   * The name for `user` whose session was started in `channel`: the guild
   * member's display name when the channel is a guild text channel and
   * the member resolves, else the global user name, else the fallback.
   */
  function DisplayName(dir: Directory, channel: ChannelId, user: UserId): string {
    var name := FallbackLabel(user);
    if channel in dir.textChannels then
      var guild := dir.textChannels[channel];
      if (guild, user) in dir.members then dir.members[(guild, user)]
      else if user in dir.users then dir.users[user]
      else name
    else if user in dir.users then dir.users[user]
    else name
  }

  // The same chain written as an ordered list of resolvers

  function MemberLookup(dir: Directory, channel: ChannelId, user: UserId): Option<string> {
    if channel in dir.textChannels && (dir.textChannels[channel], user) in dir.members
    then Some(dir.members[(dir.textChannels[channel], user)])
    else None
  }

  function UserLookup(dir: Directory, user: UserId): Option<string> {
    if user in dir.users then Some(dir.users[user]) else None
  }

  predicate NoneBefore(found: seq<Option<string>>, i: nat) {
    forall j :: 0 <= j < i && j < |found| ==> found[j].None?
  }

  /** The first resolver that produced a name, or `last` when none did. */
  function FirstFound(found: seq<Option<string>>, last: string): (r: string)
    ensures (forall i :: 0 <= i < |found| ==> found[i].None?) ==> r == last
    ensures forall i :: 0 <= i < |found| && found[i].Some? && NoneBefore(found, i) ==> r == found[i].value
  {
    if found == [] then last
    else if found[0].Some? then found[0].value
    else
      var r := FirstFound(found[1..], last);
      assert forall i :: 1 <= i < |found| && NoneBefore(found, i) ==> NoneBefore(found[1..], i - 1);
      r
  }

  /** The member's name wins, then the user's global name, then the fallback label. */
  lemma DisplayNameChain(dir: Directory, channel: ChannelId, user: UserId)
    ensures var name := DisplayName(dir, channel, user);
      && (MemberLookup(dir, channel, user).Some? ==> name == MemberLookup(dir, channel, user).value)
      && (MemberLookup(dir, channel, user).None? && user in dir.users ==> name == dir.users[user])
      && (MemberLookup(dir, channel, user).None? && user !in dir.users ==> name == FallbackLabel(user))
  {
  }

  /** The nested lookups agree with trying member, then user, then the fallback. */
  lemma DisplayNameIsFirstFound(dir: Directory, channel: ChannelId, user: UserId)
    ensures DisplayName(dir, channel, user)
            == FirstFound([MemberLookup(dir, channel, user), UserLookup(dir, user)], FallbackLabel(user))
  {
  }

  /** The fallback label embeds the identifier recoverably: distinct users get distinct labels. */
  lemma FallbackLabelInjective(a: UserId, b: UserId)
    ensures FallbackLabel(a) == FallbackLabel(b) <==> a == b
  {
    if FallbackLabel(a) == FallbackLabel(b) {
      assert FromNat(a) == FallbackLabel(a)[|FALLBACK_PREFIX|..];
      assert FromNat(b) == FallbackLabel(b)[|FALLBACK_PREFIX|..];
      FromNatInjective(a, b);
    }
  }
}
