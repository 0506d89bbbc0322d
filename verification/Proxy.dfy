/**
 The reverse proxy's routes: a table of routes kept for good, and next to it
 flags that say for a minute that a route need not be checked against the
 key-value store.
 */
module Proxy {
  import opened ByteStrings
  import opened Store

  datatype Destination = Destination(scheme: Bytes, host: Bytes)

  datatype Origin = Origin(host: Bytes, tls: bool)

  /** Where the requests of an origin go. */
  datatype Route = Route(origin: Origin, destination: Destination)

  datatype Outcome =
    | To(destination: Destination)
    | NotFound
    | TooEarly
    | Panic              // the destination in the store is no URL

  /** url.Parse, as far as the scheme and the host go. */
  type UrlParser = Bytes -> Option<Destination>

  // com.roo.host:
  const HOST_PREFIX: Bytes := [99, 111, 109, 46, 114, 111, 111, 46, 104, 111, 115, 116, 58]
  const HTTP: Bytes := [58, 104, 116, 116, 112]
  const HTTPS: Bytes := [58, 104, 116, 116, 112, 115]

  /** Lifetime of a flag, 60 seconds, in nanoseconds. */
  const LIFE: nat := 60_000_000_000

  function Suffixed(host: Bytes, scheme: Bytes): (b: Bytes) {
    HOST_PREFIX + (host + scheme)
  }

  function KeyOf(o: Origin): (b: Bytes) {
    Suffixed(o.host, if o.tls then HTTPS else HTTP)
  }

  /** The key of an origin as a text. */
  lemma KeySpelled(o: Origin)
    ensures KeyOf(o) == Spell("com.roo.host:") + o.host + if o.tls then Spell(":https") else Spell(":http")
  {
    assert Spell("com.roo.host:") == HOST_PREFIX && Spell(":https") == HTTPS && Spell(":http") == HTTP;
    Regroup(HOST_PREFIX, o.host, if o.tls then HTTPS else HTTP);
  }

  lemma SuffixedReads(host: Bytes, scheme: Bytes)
    requires scheme != []
    ensures var k := Suffixed(host, scheme);
            k[|k| - 1] == scheme[|scheme| - 1] && |k| == 13 + |host| + |scheme| && k[13..13 + |host|] == host
  {
    var k := Suffixed(host, scheme);
    assert k[13..] == host + scheme;
    assert k[13..13 + |host|] == (host + scheme)[..|host|];
  }

  /** Origins have keys of their own. */
  lemma KeyUnique(o: Origin, o': Origin)
    requires KeyOf(o) == KeyOf(o')
    ensures o == o'
  {
    SuffixedReads(o.host, if o.tls then HTTPS else HTTP);
    SuffixedReads(o'.host, if o'.tls then HTTPS else HTTP);
  }

  // -------------------------------------------------- what a request gets

  datatype Table = Table(routes: map<Bytes, Route>, flags: map<Bytes, nat>)

  /** Routes are filed under the key of their origin. */
  predicate Filed(t: Table) {
    forall k :: k in t.routes ==> k == KeyOf(t.routes[k].origin)
  }

  /** go-cache's Get: an item is good up to and including its expiration. */
  predicate Flagged(t: Table, key: Bytes, now: nat) {
    key in t.flags && now <= t.flags[key]
  }

  predicate Trusted(t: Table, o: Origin, now: nat) {
    KeyOf(o) in t.routes && Flagged(t, KeyOf(o), now)
  }

  /** `read` is what the store replies: nothing on an error, and an empty
      value for a missing key. */
  function Answer(parse: UrlParser, t: Table, o: Origin, now: nat, session: bool, read: Option<Bytes>): (r: Outcome) {
    if !session then TooEarly
    else if Trusted(t, o, now) then To(t.routes[KeyOf(o)].destination)
    else if read.None? || read.value == [] then NotFound
    else match parse(read.value)
      case None => Panic
      case Some(d) => To(d)
  }

  /** Only an answer taken from the store changes the table. */
  function After(parse: UrlParser, t: Table, o: Origin, now: nat, session: bool, read: Option<Bytes>): (r: Table) {
    var a := Answer(parse, t, o, now, session, read);
    if a.To? && !Trusted(t, o, now) then
      Table(t.routes[KeyOf(o) := Route(o, a.destination)], t.flags[KeyOf(o) := now + LIFE])
    else t
  }

  class RouteTable {
    const parse: UrlParser
    var routes: map<Bytes, Route>
    var flags: map<Bytes, nat>

    function State(): (t: Table)
      reads this
    {
      Table(routes, flags)
    }

    ghost predicate Valid()
      reads this
    {
      Filed(State())
    }

    constructor (parse: UrlParser)
      ensures Valid() && this.parse == parse && State() == Table(map[], map[])
    {
      this.parse, routes, flags := parse, map[], map[];
    }

    method Proxy(o: Origin, now: nat, session: bool, read: Option<Bytes>) returns (out: Outcome)
      requires Valid()
      modifies this
      ensures Valid()
      ensures out == Answer(parse, old(State()), o, now, session, read)
      ensures State() == After(parse, old(State()), o, now, session, read)
    {
      if !session {
        return TooEarly;
      }
      var key := KeyOf(o);
      var known := key in routes;
      var found := key in flags && now <= flags[key];
      if found && known {
        return To(routes[key].destination);
      }
      if read.None? || |read.value| == 0 {
        return NotFound;
      }
      var destination := parse(read.value);
      if destination.None? {
        return Panic;
      }
      if known {
        KeyUnique(o, routes[key].origin);
        var d := routes[key].destination;
        if destination.value.scheme != d.scheme || destination.value.host != d.host {
          routes := routes - {key};
        } else {
          assert routes[key := Route(o, d)] == routes;
          flags := flags[key := now + LIFE];
          return To(d);
        }
      }
      assert (routes - {key})[key := Route(o, destination.value)] == routes[key := Route(o, destination.value)];
      routes := routes[key := Route(o, destination.value)];
      flags := flags[key := now + LIFE];
      return To(destination.value);
    }
  }

  // ------------------------------------------------------------------ runs

  datatype World = World(now: nat, kv: Rows, table: Table)

  datatype Event =
    | Wait(time: nat)
    | Change(key: Bytes, value: Option<Bytes>)                // somebody sets or deletes a key
    | Serve(origin: Origin, session: bool, broken: bool)      // a request; the read may fail

  function Reading(kv: Rows, key: Bytes, broken: bool): (v: Option<Bytes>) {
    if broken then None else Some(if key in kv then kv[key] else [])
  }

  function Reply(parse: UrlParser, w: World, o: Origin, session: bool, broken: bool): (r: Outcome) {
    Answer(parse, w.table, o, w.now, session, Reading(w.kv, KeyOf(o), broken))
  }

  function Next(parse: UrlParser, w: World, e: Event): (r: World) {
    match e
    case Wait(time) => w.(now := w.now + time)
    case Change(key, value) => w.(kv := if value.Some? then w.kv[key := value.value] else w.kv - {key})
    case Serve(o, session, broken) =>
      w.(table := After(parse, w.table, o, w.now, session, Reading(w.kv, KeyOf(o), broken)))
  }

  ghost predicate IsRun(parse: UrlParser, run: seq<World>, events: seq<Event>) {
    && |run| == |events| + 1 && run[0].table == Table(map[], map[])
    && forall i :: 0 <= i < |events| ==> run[i + 1] == Next(parse, run[i], events[i])
  }

  /** The store sends the key to that destination. */
  predicate Holds(parse: UrlParser, kv: Rows, key: Bytes, d: Destination) {
    key in kv && kv[key] != [] && parse(kv[key]) == Some(d)
  }

  /** At moment j, LIFE before the flag lapses, the store held the route. */
  ghost predicate Backed(parse: UrlParser, run: seq<World>, i: nat, j: nat, key: Bytes) {
    && j <= i < |run| && key in run[i].table.routes && key in run[i].table.flags
    && run[j].now <= run[i].now && run[i].table.flags[key] == run[j].now + LIFE
    && Holds(parse, run[j].kv, key, run[i].table.routes[key].destination)
  }

  ghost predicate Inv(parse: UrlParser, run: seq<World>, i: nat)
    requires i < |run|
  {
    forall key :: key in run[i].table.routes ==> exists j: nat :: Backed(parse, run, i, j, key)
  }

  lemma {:induction false} RunInv(parse: UrlParser, run: seq<World>, events: seq<Event>, i: nat)
    requires IsRun(parse, run, events) && i < |run|
    ensures Inv(parse, run, i)
  {
    if i > 0 {
      RunInv(parse, run, events, i - 1);
      assert run[i] == Next(parse, run[i - 1], events[i - 1]);
      forall key | key in run[i].table.routes ensures exists j: nat :: Backed(parse, run, i, j, key) {
        if key in run[i - 1].table.routes && run[i].table.routes[key] == run[i - 1].table.routes[key]
           && key in run[i].table.flags && key in run[i - 1].table.flags
           && run[i].table.flags[key] == run[i - 1].table.flags[key] {
          var j: nat :| Backed(parse, run, i - 1, j, key);
          assert Backed(parse, run, i, j, key);
        } else {
          assert Backed(parse, run, i, i - 1, key) by { KeptOrRead(parse, run[i - 1], events[i - 1], key); }
        }
      }
    }
  }

  /** What a step does to one key's route and flag. */
  lemma KeptOrRead(parse: UrlParser, w: World, e: Event, key: Bytes)
    requires key in Next(parse, w, e).table.routes
    ensures var t := Next(parse, w, e).table;
            (key in w.table.routes && t.routes[key] == w.table.routes[key] && (key in t.flags <==> key in w.table.flags)
             && (key in t.flags ==> t.flags[key] == w.table.flags[key]))
            || (key in t.flags && t.flags[key] == w.now + LIFE && Next(parse, w, e).now == w.now
                && Holds(parse, w.kv, key, t.routes[key].destination))
  {
  }

  lemma ServedFromStore(parse: UrlParser, run: seq<World>, events: seq<Event>, i: nat, o: Origin,
      session: bool, broken: bool, d: Destination)
    requires IsRun(parse, run, events) && i < |run|
    requires Reply(parse, run[i], o, session, broken) == To(d)
    ensures exists j: nat :: j <= i && run[j].now <= run[i].now <= run[j].now + LIFE
                             && Holds(parse, run[j].kv, KeyOf(o), d)
  {
    RunInv(parse, run, events, i);
    if Trusted(run[i].table, o, run[i].now) {
      var j: nat :| Backed(parse, run, i, j, KeyOf(o));
    } else {
      assert Holds(parse, run[i].kv, KeyOf(o), d);
    }
  }

  /** Main theorem: whatever routes change, lapse or get replaced, a request
      served at a moment goes where the store, at some moment of the last 60
      seconds, sent the key made of the host and the scheme of the request. */
  lemma ServedWithinLife(parse: UrlParser, run: seq<World>, events: seq<Event>, i: nat, o: Origin,
      session: bool, broken: bool, d: Destination)
    requires IsRun(parse, run, events) && i < |run|
    requires Reply(parse, run[i], o, session, broken) == To(d)
    ensures var key := Spell("com.roo.host:") + o.host + if o.tls then Spell(":https") else Spell(":http");
            exists j: nat :: j <= i && run[j].now <= run[i].now <= run[j].now + 60_000_000_000
                             && key in run[j].kv && run[j].kv[key] != [] && parse(run[j].kv[key]) == Some(d)
  {
    KeySpelled(o);
    ServedFromStore(parse, run, events, i, o, session, broken, d);
    var j: nat :| j <= i && run[j].now <= run[i].now <= run[j].now + LIFE && Holds(parse, run[j].kv, KeyOf(o), d);
  }

  /** What a request gets, exactly. Without a session it comes too early. Within
      60 seconds of the last look it goes the way that is kept. Else the store
      decides: no value, an empty one or a failed read is not found, a value that
      is no URL panics, and any other is followed and kept from then on. */
  lemma ReplyIs(parse: UrlParser, w: World, o: Origin, session: bool, broken: bool)
    ensures var key := Spell("com.roo.host:") + o.host + if o.tls then Spell(":https") else Spell(":http");
            var t, t' := w.table, Next(parse, w, Serve(o, session, broken)).table;
            var kept := key in t.routes && key in t.flags && w.now <= t.flags[key];
            var r := Reply(parse, w, o, session, broken);
            if !session then r == TooEarly && t' == t
            else if kept then r == To(t.routes[key].destination) && t' == t
            else if broken || key !in w.kv || w.kv[key] == [] then r == NotFound && t' == t
            else if parse(w.kv[key]).None? then r == Panic && t' == t
            else
              && r == To(parse(w.kv[key]).value)
              && t'.routes == t.routes[key := Route(o, parse(w.kv[key]).value)]
              && t'.flags == t.flags[key := w.now + 60_000_000_000]
  {
    KeySpelled(o);
  }

  /** The bound is sharp: with both values readable, a key can change and for
      the next 60 seconds, not longer, requests still go the old way. */
  lemma StaleExactlyForLife(parse: UrlParser, o: Origin, v: Bytes, v': Bytes, d: Destination,
      d': Destination, start: nat, late: nat)
    requires v != [] && v' != [] && parse(v) == Some(d) && parse(v') == Some(d')
    ensures var w := Next(parse, World(start, map[KeyOf(o) := v], Table(map[], map[])), Serve(o, true, false));
            var w' := Next(parse, Next(parse, w, Change(KeyOf(o), Some(v'))), Wait(late));
            Reply(parse, w', o, true, false) == To(if late <= 60_000_000_000 then d else d')
  {
    var kv: Rows := map[KeyOf(o) := v];
    assert Reading(kv, KeyOf(o), false) == Some(v);
    assert kv[KeyOf(o) := v'][KeyOf(o)] == v';
  }
}
