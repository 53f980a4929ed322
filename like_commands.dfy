/** The like cog: its configuration file, the commands that edit the
    registry held in memory, and the periodic auto-like task. */
module LikeCog {
  import opened Registry
  import opened LikeApi
  import opened Sweep

  /** The JSON document of the configuration file: the "servers" key, which
      a file may lack, and any other top-level keys, kept but never read. */
  datatype Document = Document(servers: Option<Servers>, other: map<string, string>)

  /** What the configuration file holds when the cog starts. */
  datatype FileState = Missing | Corrupt | Parsed(doc: Document)

  /** `{"servers": {}}` */
  const DEFAULT_CONFIG := Document(Some(NO_SERVERS), map[])

  /** A parsed JSON object never repeats a key, so a parsed "servers"
      dictionary is a well-formed registry. */
  ghost predicate WellFormed(f: FileState) {
    f.Parsed? && f.doc.servers.Some? ==> f.doc.servers.value.Valid()
  }

  /** Python truthiness of a dictionary: it has at least one key. */
  predicate Truthy(d: Document): (b: bool)
    ensures b <==> d != Document(None, map[])
  {
    d.servers.Some? || d.other != map[]
  }

  /** The configuration the cog starts with, and the document written back
      to the file if loading wrote one. */
  datatype Loaded = Loaded(config: Document, written: Option<Document>)

  /** Reading the configuration file at start-up. A readable file is used as
      it is (with an empty "servers" added if it has none) and is not
      rewritten; a missing or corrupt file gives `{"servers": {}}`, which is
      also written to the file (a non-empty dictionary, so the save writes
      it and not the cog's current configuration). */
  function LoadConfig(f: FileState): (r: Loaded)
    requires WellFormed(f)
    ensures r.config.servers.Some? && r.config.servers.value.Valid()
    ensures f.Parsed? ==> r.written == None && r.config.other == f.doc.other
    ensures f.Parsed? && f.doc.servers.Some? ==> r.config == f.doc
    ensures f.Parsed? && f.doc.servers.None? ==> r.config.servers == Some(NO_SERVERS)
    ensures !f.Parsed? ==> r.config == DEFAULT_CONFIG && r.written == Some(DEFAULT_CONFIG)
  {
    match f
    case Parsed(doc) =>
      if doc.servers.Some? then Loaded(doc, None)
      else Loaded(doc.(servers := Some(NO_SERVERS)), None)
    case _ =>
      Loaded(DEFAULT_CONFIG, Some(DEFAULT_CONFIG))
  }

  /** What a save writes, the next start-up reads back as it is, without
      rewriting the file. */
  lemma SaveThenLoad(d: Document)
    requires d.servers.Some? && d.servers.value.Valid()
    ensures LoadConfig(Parsed(d)) == Loaded(d, None)
  {
  }

  /** One line of the embed that lists a guild's auto-like targets. */
  datatype Row = Row(position: nat, uid: string, server: string)

  /** The reply of `listautolike`: a "no UIDs" message, or an embed. */
  datatype Listing = NothingListed | Embed(rows: seq<Row>)

  /** The embed fields of a list, numbered from 1 in list order. */
  method NumberRows(l: seq<Entry>) returns (rows: seq<Row>)
    ensures |rows| == |l|
    ensures forall i :: 0 <= i < |l| ==> rows[i] == Row(i + 1, l[i].uid, l[i].server)
  {
    rows := [];
    for i := 0 to |l|
      invariant |rows| == i
      invariant forall k :: 0 <= k < i ==> rows[k] == Row(k + 1, l[k].uid, l[k].server)
    {
      rows := rows + [Row(i + 1, l[i].uid, l[i].server)];
    }
  }

  class LikeCommands {
    /** `config_data["servers"]` */
    var servers: Servers
    /** The other top-level keys of `config_data`. */
    var other: map<string, string>
    /** What the configuration file holds. */
    var file: FileState

    ghost predicate Valid()
      reads this
    {
      servers.Valid()
    }

    /** `config_data` as a document. */
    function ConfigData(): (d: Document)
      reads this
      ensures d.servers == Some(servers) && d.other == other
    {
      Document(Some(servers), other)
    }

    /** Start-up: the configuration is what `LoadConfig` gives. */
    constructor (f: FileState)
      requires WellFormed(f)
      ensures Valid()
      ensures ConfigData() == LoadConfig(f).config
      ensures file == if f.Parsed? then f else Parsed(DEFAULT_CONFIG)
    {
      var loaded := LoadConfig(f);
      servers := loaded.config.servers.value;
      other := loaded.config.other;
      file := match loaded.written
        case Some(d) => Parsed(d)
        case None => f;
    }

    /** Writes the given document, or the current configuration when none is
      given or the given one is an empty (falsy) dictionary. */
    method SaveConfig(configToSave: Option<Document>)
      modifies this`file
      ensures configToSave.Some? && Truthy(configToSave.value) ==> file == Parsed(configToSave.value)
      ensures configToSave.None? || !Truthy(configToSave.value) ==> file == Parsed(ConfigData())
    {
      var dataToSave := if configToSave.Some? && Truthy(configToSave.value) then configToSave.value else ConfigData();
      file := Parsed(dataToSave);
    }

    /** `setautolikechannel`: records the guild's log channel and saves. */
    method SetAutoLikeChannel(guild: string, channel: int)
      requires Valid()
      modifies this`servers, this`file
      ensures Valid() && other == old(other)
      ensures servers == SetChannel(old(servers), guild, channel)
      ensures file == Parsed(ConfigData())
    {
      servers := SetDefaultGuild(servers, guild);
      var serverConfig := servers.guilds[guild];
      servers := servers.(guilds := servers.guilds[guild := serverConfig.(channel := Some(channel))]);
      SaveConfig(None);
    }

    /** `addautolike`: rejects a bad uid before touching anything, answers
      "already listed" without saving, and otherwise appends and saves. */
    method AddAutoLike(guild: string, server: string, uid: string) returns (outcome: AddOutcome)
      requires Valid()
      modifies this`servers, this`file
      ensures Valid() && other == old(other)
      ensures AddResult(servers, outcome) == Add(old(servers), guild, server, uid)
      ensures file == if outcome == Added then Parsed(ConfigData()) else old(file)
    {
      if !ValidUid(uid) {
        return InvalidUid;
      }
      servers := SetDefaultGuild(servers, guild);
      servers := SetDefaultList(servers, guild);
      var autoList := servers.guilds[guild].autoList.value;
      var entry := Entry(uid, server);
      if entry in autoList {
        return AlreadyListed;
      }
      servers := PutList(servers, guild, autoList + [entry]);
      SaveConfig(None);
      outcome := Added;
    }

    /** `removeautolike`: answers "not listed" without saving, and otherwise
      removes the first matching entry and saves. */
    method RemoveAutoLike(guild: string, server: string, uid: string) returns (outcome: RemoveOutcome)
      requires Valid()
      modifies this`servers, this`file
      ensures Valid() && other == old(other)
      ensures RemoveResult(servers, outcome) == Remove(old(servers), guild, server, uid)
      ensures file == if outcome == Removed then Parsed(ConfigData()) else old(file)
    {
      servers := SetDefaultGuild(servers, guild);
      servers := SetDefaultList(servers, guild);
      var autoList := servers.guilds[guild].autoList.value;
      var entry := Entry(uid, server);
      if entry !in autoList {
        return NotListed;
      }
      servers := PutList(servers, guild, RemoveFirst(autoList, entry));
      SaveConfig(None);
      outcome := Removed;
    }

    /** `listautolike`: creates the guild's record and list if missing (in
      memory only) and lists the entries in order. */
    method ListAutoLike(guild: string) returns (listing: Listing)
      requires Valid()
      modifies this`servers
      ensures Valid() && servers == WithList(old(servers), guild)
      ensures listing == NothingListed <==> Entries(old(servers), guild) == []
      ensures listing.Embed? ==>
                && |listing.rows| == |Entries(old(servers), guild)|
                && forall i :: 0 <= i < |listing.rows| ==>
                     listing.rows[i] == Row(i + 1, Entries(old(servers), guild)[i].uid, Entries(old(servers), guild)[i].server)
    {
      servers := SetDefaultGuild(servers, guild);
      servers := SetDefaultList(servers, guild);
      var autoList := servers.guilds[guild].autoList.value;
      if autoList == [] {
        return NothingListed;
      }
      var rows := NumberRows(autoList);
      listing := Embed(rows);
    }

    /** The body of the task's loop for one guild: its log channel, then one
      attempt per entry of its list, in list order. `start` is the number of
      requests the run has already sent, so `net(start + j)` is the reply to
      the j-th entry. */
    method SweepGuild(guildId: string, channels: set<int>, net: nat -> Reply, start: nat)
      returns (made: seq<Attempt>)
      ensures |made| == |Entries(servers, guildId)|
      ensures forall j :: 0 <= j < |made| ==>
                made[j] == AttemptOf(servers, Target(guildId, Entries(servers, guildId)[j]), channels, net(start + j))
    {
      var serverConfig := Lookup(servers, guildId);
      var autoList := Entries(servers, guildId);
      var logChannel := LogChannel(serverConfig, channels);
      made := [];
      for j := 0 to |autoList|
        invariant |made| == j
        invariant forall k :: 0 <= k < j ==>
                    made[k] == AttemptOf(servers, Target(guildId, autoList[k]), channels, net(start + k))
      {
        var reply := net(start + j);
        made := made + [Attempt(Target(guildId, autoList[j]), logChannel, Classify(reply))];
      }
    }

    /** One run of the auto-like task. `channels` are the channel ids the bot
      can resolve; `net(k)` is the reply to the k-th request of the run. The
      run sends one request per entry, guild by guild in dictionary order and
      each list in order; the k-th report depends on the k-th reply alone, so
      a failing request does not stop or change the others. Nothing is
      modified. */
    method AutoLikeTask(channels: set<int>, net: nat -> Reply) returns (attempts: seq<Attempt>)
      requires Valid()
      ensures |attempts| == |Requests(servers, servers.order)|
      ensures forall k :: 0 <= k < |attempts| ==>
                attempts[k] == AttemptOf(servers, Requests(servers, servers.order)[k], channels, net(k))
    {
      var config := servers;
      attempts := [];
      var i := 0;
      while i < |config.order|
        invariant 0 <= i <= |config.order|
        invariant Answers(config, Requests(config, config.order[..i]), channels, net, attempts)
      {
        var guildId := config.order[i];
        var made := SweepGuild(guildId, channels, net, |attempts|);
        SweepStep(config, config.order, i, channels, net, attempts, made);
        attempts := attempts + made;
        i := i + 1;
      }
      assert config.order[..i] == config.order;
    }
  }
}
