/**
 * Routes a Spacebrew client declares, and the config message that announces them.
 * A publish route carries a default value, held as text; a subscribe route carries
 * none (its default stays the empty string a fresh SpacebrewMessage starts with).
 */
module Routes {
  import Decimal
  import opened Options

  /** Integers a JavaScript Number holds exactly (|n| <= 2^53 - 1). */
  type SafeInteger = n: int | -0x1F_FFFF_FFFF_FFFF <= n <= 0x1F_FFFF_FFFF_FFFF

  /** The `_default` argument of addPublish, restricted to the kinds of value modelled. */
  datatype DefaultArg =
    | Undefined
    | Text(text: string)
    | Integer(number: SafeInteger)
    | Boolean(flag: bool)

  /**
   * The default text stored for a publish route: "" when no default is given, the
   * string itself, or the toString() rendering of a number or a boolean.
   */
  function DefaultString(d: DefaultArg): (s: string)
    ensures d.Undefined? ==> s == ""
    ensures d.Text? ==> s == d.text
    ensures d.Integer? ==> Decimal.IsIntegerText(s) && Decimal.ParseInt(s) == d.number
    ensures d.Integer? ==> s == Decimal.IntToString(d.number)
    ensures d.Boolean? ==> (s == "true" <==> d.flag) && (s == "false" <==> !d.flag)
  {
    match d
    case Undefined => ""
    case Text(t) => t
    case Integer(n) => Decimal.ParseIntRoundTrip(n); Decimal.IntToString(n)
    case Boolean(b) => if b then "true" else "false"
  }

  /** One entry of a route table (a SpacebrewMessage). */
  datatype Route = Route(name: string, kind: string, default: string)

  /** An element of config.publish.messages: {name, type, default}. */
  datatype PublishEntry = PublishEntry(name: string, kind: string, default: string)

  /** An element of config.subscribe.messages: {name, type}. */
  datatype SubscribeEntry = SubscribeEntry(name: string, kind: string)

  /**
   * The `config` object sent to the server. A description of None is an undefined
   * one, whose key JSON.stringify leaves out of the frame.
   */
  datatype Config = Config(
    name: string,
    description: Option<string>,
    subscribe: seq<SubscribeEntry>,
    publish: seq<PublishEntry>)

  function PublishEntryOf(r: Route): PublishEntry {
    PublishEntry(r.name, r.kind, r.default)
  }

  function SubscribeEntryOf(r: Route): SubscribeEntry {
    SubscribeEntry(r.name, r.kind)
  }

  /** The publish table as it appears in the config, one entry per route, in order. */
  function PublishEntries(rs: seq<Route>): (es: seq<PublishEntry>)
    ensures |es| == |rs|
  {
    if rs == [] then [] else [PublishEntryOf(rs[0])] + PublishEntries(rs[1..])
  }

  /** The subscribe table as it appears in the config, one entry per route, in order. */
  function SubscribeEntries(rs: seq<Route>): (es: seq<SubscribeEntry>)
    ensures |es| == |rs|
  {
    if rs == [] then [] else [SubscribeEntryOf(rs[0])] + SubscribeEntries(rs[1..])
  }

  /** Reading a publish list back into routes. */
  function PublishedRoutes(es: seq<PublishEntry>): seq<Route> {
    if es == [] then [] else [Route(es[0].name, es[0].kind, es[0].default)] + PublishedRoutes(es[1..])
  }

  /** Reading a subscribe list back into routes; subscribe routes have the empty default. */
  function SubscribedRoutes(es: seq<SubscribeEntry>): seq<Route> {
    if es == [] then [] else [Route(es[0].name, es[0].kind, "")] + SubscribedRoutes(es[1..])
  }

  predicate NoDefaults(rs: seq<Route>) {
    forall i :: 0 <= i < |rs| ==> rs[i].default == ""
  }

  /** The k-th config entry is the k-th declared route. */
  lemma {:induction false} PublishEntriesAt(rs: seq<Route>, k: nat)
    requires k < |rs|
    ensures PublishEntries(rs)[k] == PublishEntry(rs[k].name, rs[k].kind, rs[k].default)
  {
    if k > 0 {
      PublishEntriesAt(rs[1..], k - 1);
    }
  }

  /** The k-th config entry is the k-th declared route, without its default. */
  lemma {:induction false} SubscribeEntriesAt(rs: seq<Route>, k: nat)
    requires k < |rs|
    ensures SubscribeEntries(rs)[k] == SubscribeEntry(rs[k].name, rs[k].kind)
  {
    if k > 0 {
      SubscribeEntriesAt(rs[1..], k - 1);
    }
  }

  /** Declaring one more route adds exactly one config entry, at the end. */
  lemma {:induction false} PublishEntriesAppend(rs: seq<Route>, r: Route)
    ensures PublishEntries(rs + [r]) == PublishEntries(rs) + [PublishEntryOf(r)]
  {
    if rs != [] {
      assert (rs + [r])[1..] == rs[1..] + [r];
      PublishEntriesAppend(rs[1..], r);
    }
  }

  lemma {:induction false} SubscribeEntriesAppend(rs: seq<Route>, r: Route)
    ensures SubscribeEntries(rs + [r]) == SubscribeEntries(rs) + [SubscribeEntryOf(r)]
  {
    if rs != [] {
      assert (rs + [r])[1..] == rs[1..] + [r];
      SubscribeEntriesAppend(rs[1..], r);
    }
  }

  /** The publish list of a config determines the publish table exactly. */
  lemma {:induction false} PublishEntriesRoundTrip(rs: seq<Route>)
    ensures PublishedRoutes(PublishEntries(rs)) == rs
  {
    if rs != [] {
      PublishEntriesRoundTrip(rs[1..]);
    }
  }

  /** The subscribe list of a config determines a subscribe table, whose defaults are all "". */
  lemma {:induction false} SubscribeEntriesRoundTrip(rs: seq<Route>)
    requires NoDefaults(rs)
    ensures SubscribedRoutes(SubscribeEntries(rs)) == rs
  {
    if rs != [] {
      SubscribeEntriesRoundTrip(rs[1..]);
    }
  }

  /** The `for` loop that builds the `publishers` list of the config. */
  method CollectPublishers(publishes: seq<Route>) returns (publishers: seq<PublishEntry>)
    ensures publishers == PublishEntries(publishes)
  {
    publishers := [];
    var i, len := 0, |publishes|;
    while i < len
      invariant 0 <= i <= len == |publishes|
      invariant publishers == PublishEntries(publishes[..i])
    {
      var m := publishes[i];
      var pub := PublishEntry(m.name, m.kind, m.default);
      PublishEntriesAppend(publishes[..i], m);
      assert publishes[..i + 1] == publishes[..i] + [m];
      publishers := publishers + [pub];
      i := i + 1;
    }
    assert publishes[..i] == publishes;
  }

  /** The `for` loop that builds the `subscribers` list of the config. */
  method CollectSubscribers(subscribes: seq<Route>) returns (subscribers: seq<SubscribeEntry>)
    ensures subscribers == SubscribeEntries(subscribes)
  {
    subscribers := [];
    var i := 0;
    while i < |subscribes|
      invariant 0 <= i <= |subscribes|
      invariant subscribers == SubscribeEntries(subscribes[..i])
    {
      var m := subscribes[i];
      var sub := SubscribeEntry(m.name, m.kind);
      SubscribeEntriesAppend(subscribes[..i], m);
      assert subscribes[..i + 1] == subscribes[..i] + [m];
      subscribers := subscribers + [sub];
      i := i + 1;
    }
    assert subscribes[..i] == subscribes;
  }
}
