/** The order in which the periodic auto-like task sends its requests, and
    what it reports for each. */
module Sweep {
  import opened Registry
  import opened LikeApi

  /** One request of a sweep: an entry of a guild's list. */
  datatype Target = Target(guild: string, entry: Entry)

  /** What the sweep does for one target: the report it prints, and the log
      channel it also sends that report to, when there is one. */
  datatype Attempt = Attempt(target: Target, logChannel: Option<int>, report: Report)

  /** The channel the reports of a guild go to: its "auto_like_channel" when
      that id is non-zero (truthy) and the bot can resolve it. */
  function LogChannel(cfg: GuildConfig, channels: set<int>): (r: Option<int>)
    ensures r.Some? <==> cfg.channel.Some? && cfg.channel.value != 0 && cfg.channel.value in channels
    ensures r.Some? ==> r == cfg.channel
  {
    match cfg.channel
    case Some(id) => if id != 0 && id in channels then Some(id) else None
    case None => None
  }

  function AttemptOf(s: Servers, t: Target, channels: set<int>, reply: Reply): Attempt {
    Attempt(t, LogChannel(Lookup(s, t.guild), channels), Classify(reply))
  }

  /** The entries of list `l` as targets of guild `g`, in list order. */
  function Tag(g: string, l: seq<Entry>): (r: seq<Target>)
    ensures |r| == |l|
    decreases |l|
  {
    if l == [] then [] else Tag(g, l[..|l| - 1]) + [Target(g, l[|l| - 1])]
  }

  lemma {:induction false} TagAt(g: string, l: seq<Entry>, k: nat)
    requires k < |l|
    ensures Tag(g, l)[k] == Target(g, l[k])
    decreases |l|
  {
    if k < |l| - 1 {
      TagAt(g, l[..|l| - 1], k);
    }
  }

  /** How many entries the guilds `order` list between them. */
  function TotalEntries(s: Servers, order: seq<string>): nat
    decreases |order|
  {
    if order == [] then 0
    else TotalEntries(s, order[..|order| - 1]) + |Entries(s, order[|order| - 1])|
  }

  /** The requests of a sweep over the guilds `order`: guild after guild,
      each guild's list in list order; a guild without a list adds nothing.
      There is one request per listed entry. */
  function Requests(s: Servers, order: seq<string>): (r: seq<Target>)
    ensures |r| == TotalEntries(s, order)
    decreases |order|
  {
    if order == [] then []
    else
      var g := order[|order| - 1];
      Requests(s, order[..|order| - 1]) + Tag(g, Entries(s, g))
  }

  /** Cutting the last guild off the order cuts its requests off the end. */
  lemma RequestsSnoc(s: Servers, order: seq<string>)
    requires order != []
    ensures Requests(s, order) ==
              Requests(s, order[..|order| - 1]) + Tag(order[|order| - 1], Entries(s, order[|order| - 1]))
  {
  }

  /** Adding the guild at position `i` of the order to a sweep adds the
      targets of its list after those already made. */
  lemma RequestsExtend(s: Servers, order: seq<string>, i: nat, done: seq<Target>, next: seq<Target>)
    requires i < |order|
    requires done == Requests(s, order[..i]) && next == Requests(s, order[..i + 1])
    ensures |next| == |done| + |Entries(s, order[i])|
    ensures forall k :: 0 <= k < |done| ==> next[k] == done[k]
    ensures forall k :: |done| <= k < |next| ==> next[k] == Target(order[i], Entries(s, order[i])[k - |done|])
  {
    assert order[..i + 1][..i] == order[..i];
    RequestsSnoc(s, order[..i + 1]);
    forall k | |done| <= k < |next|
      ensures next[k] == Target(order[i], Entries(s, order[i])[k - |done|])
    {
      TagAt(order[i], Entries(s, order[i]), k - |done|);
    }
  }

  /** `attempts` answer the requests `ts` one for one, the k-th with reply `net(k)`. */
  ghost predicate Answers(s: Servers, ts: seq<Target>, channels: set<int>, net: nat -> Reply, attempts: seq<Attempt>) {
    |attempts| == |ts| && forall k :: 0 <= k < |ts| ==> attempts[k] == AttemptOf(s, ts[k], channels, net(k))
  }

  /** When the requests `next` are those already answered (`done`) followed
      by the entries of guild `g`, answering those entries with the replies
      that follow the ones already used answers `next`. */
  lemma AnswersExtend(s: Servers, g: string, channels: set<int>, net: nat -> Reply,
                      done: seq<Target>, next: seq<Target>, before: seq<Attempt>, made: seq<Attempt>)
    requires Answers(s, done, channels, net, before)
    requires |next| == |done| + |Entries(s, g)|
    requires forall k :: 0 <= k < |done| ==> next[k] == done[k]
    requires forall k :: |done| <= k < |next| ==> next[k] == Target(g, Entries(s, g)[k - |done|])
    requires |made| == |Entries(s, g)|
    requires forall j :: 0 <= j < |made| ==>
               made[j] == AttemptOf(s, Target(g, Entries(s, g)[j]), channels, net(|before| + j))
    ensures Answers(s, next, channels, net, before + made)
  {
    var after := before + made;
    forall k | 0 <= k < |done|
      ensures after[k] == AttemptOf(s, next[k], channels, net(k))
    {
      assert after[k] == before[k];
    }
    forall k | |done| <= k < |next|
      ensures after[k] == AttemptOf(s, next[k], channels, net(k))
    {
      assert after[k] == made[k - |done|];
    }
  }

  /** One guild of a run: answering the entries of the guild at position `i`
      after the requests of the guilds before it answers the requests of the
      guilds up to and including it. */
  lemma SweepStep(s: Servers, order: seq<string>, i: nat, channels: set<int>, net: nat -> Reply,
                  before: seq<Attempt>, made: seq<Attempt>)
    requires i < |order|
    requires Answers(s, Requests(s, order[..i]), channels, net, before)
    requires |made| == |Entries(s, order[i])|
    requires forall j :: 0 <= j < |made| ==>
               made[j] == AttemptOf(s, Target(order[i], Entries(s, order[i])[j]), channels, net(|before| + j))
    ensures Answers(s, Requests(s, order[..i + 1]), channels, net, before + made)
  {
    var done := Requests(s, order[..i]);
    var next := Requests(s, order[..i + 1]);
    RequestsExtend(s, order, i, done, next);
    AnswersExtend(s, order[i], channels, net, done, next, before, made);
  }

  /** The requests of consecutive runs of guilds follow each other. */
  lemma {:induction false} RequestsConcat(s: Servers, o1: seq<string>, o2: seq<string>)
    ensures Requests(s, o1 + o2) == Requests(s, o1) + Requests(s, o2)
    decreases |o2|
  {
    if o2 != [] {
      var o := o1 + o2;
      assert o[..|o| - 1] == o1 + o2[..|o2| - 1];
      assert o[|o| - 1] == o2[|o2| - 1];
      RequestsSnoc(s, o);
      RequestsSnoc(s, o2);
      RequestsConcat(s, o1, o2[..|o2| - 1]);
    } else {
      assert o1 + o2 == o1;
    }
  }

  /** The entries of guild `g` among the targets `ts`, in the order they appear. */
  function ForGuild(ts: seq<Target>, g: string): seq<Entry>
    decreases |ts|
  {
    if ts == [] then []
    else
      var t := ts[|ts| - 1];
      ForGuild(ts[..|ts| - 1], g) + (if t.guild == g then [t.entry] else [])
  }

  lemma {:induction false} ForGuildConcat(a: seq<Target>, b: seq<Target>, g: string)
    ensures ForGuild(a + b, g) == ForGuild(a, g) + ForGuild(b, g)
    decreases |b|
  {
    if b == [] {
      assert a + b == a;
    } else {
      assert (a + b)[..|a + b| - 1] == a + b[..|b| - 1];
      ForGuildConcat(a, b[..|b| - 1], g);
    }
  }

  lemma {:induction false} ForGuildTag(h: string, l: seq<Entry>, g: string)
    ensures ForGuild(Tag(h, l), g) == if h == g then l else []
    decreases |l|
  {
    if l != [] {
      var t := Tag(h, l);
      assert t[..|t| - 1] == Tag(h, l[..|l| - 1]);
      ForGuildTag(h, l[..|l| - 1], g);
    }
  }

  lemma {:induction false} ForGuildAbsent(s: Servers, order: seq<string>, g: string)
    requires g !in order
    ensures ForGuild(Requests(s, order), g) == []
    decreases |order|
  {
    if order != [] {
      var init := order[..|order| - 1];
      var last := order[|order| - 1];
      assert g != last;
      assert g !in init by {
        forall i | 0 <= i < |init| ensures init[i] != g {
          assert init[i] == order[i];
        }
      }
      RequestsSnoc(s, order);
      ForGuildAbsent(s, init, g);
      ForGuildConcat(Requests(s, init), Tag(last, Entries(s, last)), g);
      ForGuildTag(last, Entries(s, last), g);
    }
  }

  lemma {:induction false} ForGuildPresent(s: Servers, order: seq<string>, g: string)
    requires Distinct(order) && g in order
    ensures ForGuild(Requests(s, order), g) == Entries(s, g)
    decreases |order|
  {
    var init := order[..|order| - 1];
    var last := order[|order| - 1];
    var done := Requests(s, init);
    var tail := Tag(last, Entries(s, last));
    RequestsSnoc(s, order);
    ForGuildConcat(done, tail, g);
    ForGuildTag(last, Entries(s, last), g);
    assert Distinct(init) by {
      forall i, j | 0 <= i < j < |init| ensures init[i] != init[j] {
        assert init[i] == order[i] && init[j] == order[j];
      }
    }
    if g == last {
      assert g !in init by {
        forall i | 0 <= i < |init| ensures init[i] != g {
          assert init[i] == order[i];
        }
      }
      ForGuildAbsent(s, init, g);
      assert ForGuild(Requests(s, order), g) == [] + Entries(s, g);
    } else {
      var i :| 0 <= i < |order| && order[i] == g;
      assert init[i] == g;
      ForGuildPresent(s, init, g);
      assert ForGuild(Requests(s, order), g) == Entries(s, g) + [];
    }
  }

  /** A sweep sends one request for every entry of every guild: the requests
      for guild `g` are exactly its list, in list order (none at all for a
      guild without a list). */
  lemma RequestsPerGuild(s: Servers, g: string)
    requires s.Valid()
    ensures ForGuild(Requests(s, s.order), g) == Entries(s, g)
  {
    if g in s.order {
      ForGuildPresent(s, s.order, g);
    } else {
      ForGuildAbsent(s, s.order, g);
    }
  }
}
