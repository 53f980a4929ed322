/** The per-guild auto-like registry kept under the "servers" key of the
    bot's configuration document, and what each command does to it. */
module Registry {

  datatype Option<T> = None | Some(value: T)

  /** One auto-like target, the JSON object {"uid": ..., "server": ...}.
      Two targets are equal exactly when both fields are. */
  datatype Entry = Entry(uid: string, server: string)

  /** A guild's record. Either key ("auto_like_channel", "auto_like_list")
      may be missing from the JSON object. */
  datatype GuildConfig = GuildConfig(channel: Option<int>, autoList: Option<seq<Entry>>)

  /** The `{}` that `setdefault` inserts for an unknown guild. */
  const BLANK := GuildConfig(None, None)

  /** The dictionary under "servers": guild ids in insertion order (the order
      in which the dictionary is iterated and serialised) and their records. */
  datatype Servers = Servers(order: seq<string>, guilds: map<string, GuildConfig>) {
    ghost predicate Valid() {
      Distinct(order) && forall g :: g in guilds <==> g in order
    }
  }

  /** No guild id occurs twice: each one is distinct from all before it. */
  ghost predicate Distinct(order: seq<string>) {
    forall i, j :: 0 <= i < j < |order| ==> order[i] != order[j]
  }

  const NO_SERVERS := Servers([], map[])

  /** The record of guild `g`, or `{}` when the guild has none. */
  function Lookup(s: Servers, g: string): GuildConfig {
    if g in s.guilds then s.guilds[g] else BLANK
  }

  /** `record.get("auto_like_list", [])` for guild `g`: the guild's list, or
      no entries when the guild has no record or its record has no list. */
  function Entries(s: Servers, g: string): seq<Entry> {
    match Lookup(s, g).autoList
    case Some(list) => list
    case None => []
  }

  /** `servers.setdefault(g, {})`: a new guild goes to the end of the order. */
  function SetDefaultGuild(s: Servers, g: string): (r: Servers)
    requires s.Valid()
    ensures r.Valid() && g in r.guilds
    ensures forall h :: Lookup(r, h) == Lookup(s, h)
    ensures r.order == if g in s.guilds then s.order else s.order + [g]
  {
    if g in s.guilds then s
    else
      assert (s.order + [g])[..|s.order|] == s.order;
      Servers(s.order + [g], s.guilds[g := BLANK])
  }

  /** `record.setdefault("auto_like_list", [])` on the existing record of `g`. */
  function SetDefaultList(s: Servers, g: string): (r: Servers)
    requires s.Valid() && g in s.guilds
    ensures r.Valid() && g in r.guilds && r.order == s.order
    ensures r.guilds[g] == s.guilds[g].(autoList := Some(Entries(s, g)))
    ensures forall h :: h != g ==> Lookup(r, h) == Lookup(s, h)
  {
    var cfg := s.guilds[g];
    if cfg.autoList.Some? then s else Servers(s.order, s.guilds[g := cfg.(autoList := Some([]))])
  }

  /** The two `setdefault` calls that open add, remove and list: afterwards
      the guild has a record and the record has a list, and no list changed. */
  function WithList(s: Servers, g: string): (r: Servers)
    requires s.Valid()
    ensures r.Valid() && g in r.guilds
    ensures r.guilds[g] == Lookup(s, g).(autoList := Some(Entries(s, g)))
    ensures forall h :: h != g ==> Lookup(r, h) == Lookup(s, h)
    ensures forall h :: Entries(r, h) == Entries(s, h)
    ensures r.order == if g in s.guilds then s.order else s.order + [g]
  {
    SetDefaultList(SetDefaultGuild(s, g), g)
  }

  /** Replaces the list of a guild that already has a record. */
  function PutList(s: Servers, g: string, l: seq<Entry>): (r: Servers)
    requires s.Valid() && g in s.guilds
    ensures r.Valid() && g in r.guilds
  {
    Servers(s.order, s.guilds[g := s.guilds[g].(autoList := Some(l))])
  }

  // ---------------------------------------------------------------------
  // set_auto_like_channel

  /** The registry after `setautolikechannel` in guild `g`. */
  function SetChannel(s: Servers, g: string, channel: int): (r: Servers)
    requires s.Valid()
    ensures r.Valid() && g in r.guilds
    ensures r.guilds[g].channel == Some(channel)
    ensures r.guilds[g].autoList == Lookup(s, g).autoList
    ensures forall h :: h != g ==> Lookup(r, h) == Lookup(s, h)
    ensures r.order == if g in s.guilds then s.order else s.order + [g]
  {
    var t := SetDefaultGuild(s, g);
    Servers(t.order, t.guilds[g := t.guilds[g].(channel := Some(channel))])
  }

  /** Setting the channel twice is setting it once, to the second value. */
  lemma SetChannelLastWins(s: Servers, g: string, first: int, second: int)
    requires s.Valid()
    ensures SetChannel(SetChannel(s, g, first), g, second) == SetChannel(s, g, second)
  {
    var a := SetChannel(SetChannel(s, g, first), g, second);
    var b := SetChannel(s, g, second);
    assert a.guilds.Keys == b.guilds.Keys;
    forall h | h in a.guilds ensures a.guilds[h] == b.guilds[h] {
      assert Lookup(a, h) == Lookup(b, h);
    }
  }

  // ---------------------------------------------------------------------
  // add_auto_like

  predicate IsDigit(c: char) {
    '0' <= c <= '9'
  }

  /** The guard of add: all digits and at least six characters long. */
  predicate ValidUid(uid: string) {
    |uid| >= 6 && forall i :: 0 <= i < |uid| ==> IsDigit(uid[i])
  }

  /** Where the guard draws the line: six digits pass; five digits, a sign,
      a space or a letter do not. */
  lemma ValidUidBoundary()
    ensures ValidUid("123456") && ValidUid("0000001")
    ensures !ValidUid("12345") && !ValidUid("")
    ensures !ValidUid("-123456") && !ValidUid(" 123456") && !ValidUid("12345a")
  {
    assert "12345a"[5] == 'a';
    assert "-123456"[0] == '-';
    assert " 123456"[0] == ' ';
  }

  datatype AddOutcome = InvalidUid | AlreadyListed | Added

  datatype AddResult = AddResult(servers: Servers, outcome: AddOutcome)

  /** The registry after `addautolike server uid` in guild `g`, and which
      of the three replies the command gives. */
  function Add(s: Servers, g: string, server: string, uid: string): (r: AddResult)
    requires s.Valid()
    ensures r.servers.Valid()
    ensures r.outcome == InvalidUid <==> !ValidUid(uid)
    ensures r.outcome == AlreadyListed <==> ValidUid(uid) && Entry(uid, server) in Entries(s, g)
    ensures r.outcome == InvalidUid ==> r.servers == s
    ensures r.outcome == AlreadyListed ==> r.servers == WithList(s, g)
    ensures r.outcome == Added ==>
              && g in r.servers.guilds
              && r.servers.order == WithList(s, g).order
              && r.servers.guilds[g].channel == Lookup(s, g).channel
              && r.servers.guilds[g].autoList == Some(Entries(s, g) + [Entry(uid, server)])
              && Entries(r.servers, g) == Entries(s, g) + [Entry(uid, server)]
              && forall h :: h != g ==> Lookup(r.servers, h) == Lookup(s, h)
  {
    if !ValidUid(uid) then AddResult(s, InvalidUid)
    else
      var t := WithList(s, g);
      var entry := Entry(uid, server);
      if entry in Entries(t, g) then AddResult(t, AlreadyListed)
      else AddResult(PutList(t, g, Entries(t, g) + [entry]), Added)
  }

  // ---------------------------------------------------------------------
  // remove_auto_like

  /** Python's `list.remove`: drops the first element equal to `e`. */
  function RemoveFirst(l: seq<Entry>, e: Entry): (r: seq<Entry>)
    ensures e in l ==> |r| == |l| - 1
    ensures e !in l ==> r == l
  {
    if l == [] then []
    else if l[0] == e then l[1..]
    else
      assert l == [l[0]] + l[1..];
      [l[0]] + RemoveFirst(l[1..], e)
  }

  /** Position of the first element equal to `e`. */
  function IndexOf(l: seq<Entry>, e: Entry): (i: nat)
    requires e in l
    ensures i < |l| && l[i] == e && e !in l[..i]
  {
    if l[0] == e then 0
    else
      var j := IndexOf(l[1..], e);
      assert l[..j + 1] == [l[0]] + l[1..][..j];
      1 + j
  }

  /** `list.remove` cuts out exactly the first match and keeps the order of
      everything else. */
  lemma {:induction false} RemoveFirstCutsFirstMatch(l: seq<Entry>, e: Entry)
    requires e in l
    ensures RemoveFirst(l, e) == l[..IndexOf(l, e)] + l[IndexOf(l, e) + 1..]
  {
    if l[0] != e {
      var t := l[1..];
      RemoveFirstCutsFirstMatch(t, e);
      var j := IndexOf(t, e);
      calc {
        RemoveFirst(l, e);
        [l[0]] + RemoveFirst(t, e);
        [l[0]] + (t[..j] + t[j + 1..]);
        ([l[0]] + t[..j]) + t[j + 1..];
        { assert [l[0]] + t[..j] == l[..j + 1]; assert t[j + 1..] == l[j + 2..]; }
        l[..j + 1] + l[j + 2..];
      }
    }
  }

  /** Removing an element just appended (and not listed before) restores the list. */
  lemma {:induction false} RemoveAfterAppend(l: seq<Entry>, e: Entry)
    requires e !in l
    ensures RemoveFirst(l + [e], e) == l
  {
    if l != [] {
      assert (l + [e])[0] == l[0];
      assert (l + [e])[1..] == l[1..] + [e];
      RemoveAfterAppend(l[1..], e);
      assert l == [l[0]] + l[1..];
    }
  }

  datatype RemoveOutcome = NotListed | Removed

  datatype RemoveResult = RemoveResult(servers: Servers, outcome: RemoveOutcome)

  /** The registry after `removeautolike server uid` in guild `g`. The uid is
      not validated. */
  function Remove(s: Servers, g: string, server: string, uid: string): (r: RemoveResult)
    requires s.Valid()
    ensures r.servers.Valid() && g in r.servers.guilds
    ensures r.outcome == Removed <==> Entry(uid, server) in Entries(s, g)
    ensures r.outcome == NotListed ==> r.servers == WithList(s, g)
    ensures r.servers.order == WithList(s, g).order
    ensures r.servers.guilds[g].channel == Lookup(s, g).channel
    ensures r.servers.guilds[g].autoList == Some(RemoveFirst(Entries(s, g), Entry(uid, server)))
    ensures Entries(r.servers, g) == RemoveFirst(Entries(s, g), Entry(uid, server))
    ensures forall h :: h != g ==> Lookup(r.servers, h) == Lookup(s, h)
  {
    var t := WithList(s, g);
    var entry := Entry(uid, server);
    if entry !in Entries(t, g) then RemoveResult(t, NotListed)
    else RemoveResult(PutList(t, g, RemoveFirst(Entries(t, g), entry)), Removed)
  }

  /** Adding a valid pair that is not listed and then removing it gives back
      the original list; the registry is as after the two `setdefault` calls. */
  lemma AddThenRemove(s: Servers, g: string, server: string, uid: string)
    requires s.Valid() && ValidUid(uid) && Entry(uid, server) !in Entries(s, g)
    ensures Add(s, g, server, uid).outcome == Added
    ensures Remove(Add(s, g, server, uid).servers, g, server, uid).outcome == Removed
    ensures Remove(Add(s, g, server, uid).servers, g, server, uid).servers == WithList(s, g)
  {
    var e := Entry(uid, server);
    var l := Entries(s, g);
    var w := WithList(s, g);
    var a := PutList(w, g, l + [e]);
    assert Add(s, g, server, uid).servers == a;
    assert WithList(a, g) == a;
    RemoveAfterAppend(l, e);
    assert Remove(a, g, server, uid).servers == PutList(a, g, l);
    assert w.guilds[g] == w.guilds[g].(autoList := Some(l));
    assert PutList(a, g, l).guilds == w.guilds;
  }

  // ---------------------------------------------------------------------
  // Duplicate freedom

  predicate NoDuplicates(l: seq<Entry>) {
    forall i, j :: 0 <= i < j < |l| ==> l[i] != l[j]
  }

  ghost predicate DuplicateFree(s: Servers) {
    forall g :: NoDuplicates(Entries(s, g))
  }

  lemma CutAt(l: seq<Entry>, i: nat, p: nat)
    requires i < |l| && p < |l| - 1
    ensures (l[..i] + l[i + 1..])[p] == l[if p < i then p else p + 1]
  {
    if p >= i {
      assert (l[..i] + l[i + 1..])[p] == l[i + 1..][p - i];
    }
  }

  lemma RemoveFirstKeepsNoDuplicates(l: seq<Entry>, e: Entry)
    requires NoDuplicates(l)
    ensures NoDuplicates(RemoveFirst(l, e))
  {
    if e in l {
      RemoveFirstCutsFirstMatch(l, e);
      var i := IndexOf(l, e);
      var r := l[..i] + l[i + 1..];
      forall p, q | 0 <= p < q < |r| ensures r[p] != r[q] {
        CutAt(l, i, p);
        CutAt(l, i, q);
      }
    }
  }

  /** The commands a user can issue against the registry. */
  datatype Command =
    | SetChannelCmd(guild: string, channel: int)
    | AddCmd(guild: string, server: string, uid: string)
    | RemoveCmd(guild: string, server: string, uid: string)
    | ListCmd(guild: string)

  function Apply(s: Servers, c: Command): (r: Servers)
    requires s.Valid()
    ensures r.Valid()
  {
    match c
    case SetChannelCmd(g, ch) => SetChannel(s, g, ch)
    case AddCmd(g, server, uid) => Add(s, g, server, uid).servers
    case RemoveCmd(g, server, uid) => Remove(s, g, server, uid).servers
    case ListCmd(g) => WithList(s, g)
  }

  function Run(s: Servers, cmds: seq<Command>): (r: Servers)
    requires s.Valid()
    ensures r.Valid()
    decreases |cmds|
  {
    if cmds == [] then s else Run(Apply(s, cmds[0]), cmds[1..])
  }

  lemma ApplyKeepsDuplicateFree(s: Servers, c: Command)
    requires s.Valid() && DuplicateFree(s)
    ensures DuplicateFree(Apply(s, c))
  {
    var r := Apply(s, c);
    forall h ensures NoDuplicates(Entries(r, h)) {
      assert NoDuplicates(Entries(s, h));
      match c
      case SetChannelCmd(g, ch) =>
        if h == g { assert Entries(r, h) == Entries(s, h); }
      case AddCmd(g, server, uid) =>
        if h == g {
          var res := Add(s, g, server, uid);
          if res.outcome == Added {
            var l := Entries(s, g);
            var e := Entry(uid, server);
            forall i, j | 0 <= i < j < |l + [e]| ensures (l + [e])[i] != (l + [e])[j] {
              if j == |l| { assert (l + [e])[i] == l[i]; }
            }
          }
        }
      case RemoveCmd(g, server, uid) =>
        if h == g { RemoveFirstKeepsNoDuplicates(Entries(s, g), Entry(uid, server)); }
      case ListCmd(g) =>
    }
  }

  /** A registry without duplicate pairs keeps none, whatever commands run:
      add never appends a pair that is already listed. The same uid under two
      servers is two different pairs. */
  lemma {:induction false} RunKeepsDuplicateFree(s: Servers, cmds: seq<Command>)
    requires s.Valid() && DuplicateFree(s)
    ensures DuplicateFree(Run(s, cmds))
    decreases |cmds|
  {
    if cmds != [] {
      ApplyKeepsDuplicateFree(s, cmds[0]);
      RunKeepsDuplicateFree(Apply(s, cmds[0]), cmds[1..]);
    }
  }
}
