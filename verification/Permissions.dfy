/**
 The permission engine over the store: writing permissions, and authorizing
 requests by walking paths and entities behind a cache kept in the same store.
 */
module Permissions {
  import opened ByteStrings
  import opened Commands
  import opened Store
  import opened Rights
  import opened Expiry
  import opened PermKeys
  import opened Paths
  import Iteration

  /** Settings, and what encoding/json makes of a text. */
  datatype Config = Config(subpaths: bool, exact: bool, cacheSeconds: int, fix: Coercion)

  datatype Permission = Permission(entity: Typed, context: Typed, action: Typed, right: Option<Bytes>, delete: bool)

  datatype Request = Request(user: Typed, entities: seq<Typed>, resource: Typed, action: Typed, right: Option<Bytes>)

  /** Clock, random suffix, and whether the two cache writes get through. */
  datatype Env = Env(now: nat, suffix: Bytes, cacheSaved: bool, ttlSaved: bool)

  // --------------------------------------------------------------- permiss

  function PermData(p: Permission): (r: KVData) {
    KVData(PermKey(p.entity.val, p.context.rune, p.context.val, p.action),
           if p.delete then None else if p.action.val != [] then Some([1]) else p.right)
  }

  function PermBatch(ps: seq<Permission>): (ds: seq<KVData>)
    ensures |ds| == |ps|
  {
    seq(|ps|, i requires 0 <= i < |ps| => PermData(ps[i]))
  }

  /** What the store makes of the proposed batch. */
  function Written(fix: Coercion, rows: Rows, ps: seq<Permission>): (r: Rows) {
    ApplyOps(rows, OpsOf(FixedAll(fix, PermBatch(ps))))
  }

  // ------------------------------------------------------- what is granted

  function Want(req: Request): (v: Option<Bytes>) {
    if req.action.val != [] then Some([1]) else req.right
  }

  /** The user and the entities the request names. */
  function Candidates(req: Request): (bs: seq<Bytes>) {
    [req.user.val] + seq(|req.entities|, i requires 0 <= i < |req.entities| => req.entities[i].val)
  }

  /** The permission row for one entity at one path passes. */
  predicate GrantsAt(cfg: Config, rows: Rows, req: Request, entity: Bytes, path: Bytes) {
    Grants(cfg.exact, Get(rows, PermKey(entity, req.resource.rune, LookupContext(path), req.action)), Want(req))
  }

  /** Some candidate is granted the request at this path. */
  ghost predicate PathGrants(cfg: Config, rows: Rows, req: Request, path: Bytes) {
    exists entity :: entity in Candidates(req) && GrantsAt(cfg, rows, req, entity, path)
  }

  /** The plain walk over paths and entities grants. */
  ghost predicate WalkGrants(cfg: Config, rows: Rows, req: Request) {
    exists path :: path in TriedPaths(cfg.subpaths, req.resource.val) && PathGrants(cfg, rows, req, path)
  }

  function RequestKey(req: Request): (b: Bytes) {
    CacheKey(req.user.val, req.resource.val, req.action, req.right)
  }

  /** A non-empty cached value names a candidate and its row passes. */
  predicate ValueGrants(cfg: Config, rows: Rows, req: Request, cached: Bytes) {
    cached != [] && var parts := Split(cached, COLON);
    |parts| == 4 && parts[1] in Candidates(req)
    && Grants(cfg.exact, Get(rows, HitKey(cached, req.action)), Want(req))
  }

  predicate CacheGrants(cfg: Config, rows: Rows, req: Request) {
    cfg.cacheSeconds > 0 && RequestKey(req) in rows && ValueGrants(cfg, rows, req, rows[RequestKey(req)])
  }

  /** What cache and ttl write after a success. The expiry row names the key
      before, the cache row stands at the key after coercion. */
  function Noted(cfg: Config, rows: Rows, req: Request, entity: Bytes, path: Bytes, env: Env): (r: Rows) {
    if cfg.cacheSeconds <= 1 || !env.cacheSaved then rows
    else
      var rows' := rows[cfg.fix(RequestKey(req)) := CacheValue(entity, req.resource.rune, path)];
      if env.ttlSaved then rows'[cfg.fix(TtlKey(env.now + cfg.cacheSeconds, env.suffix)) := RequestKey(req)] else rows'
  }

  /** The first of these entities that is granted the request at this path. */
  function FirstEntity(cfg: Config, rows: Rows, req: Request, path: Bytes, entities: seq<Bytes>): (v: Option<Bytes>) {
    if entities == [] then None
    else if GrantsAt(cfg, rows, req, entities[0], path) then Some(entities[0])
    else FirstEntity(cfg, rows, req, path, entities[1..])
  }

  datatype Success = Success(path: Bytes, entity: Bytes)

  /** The success the walk stops at: paths in order, at each the user first. */
  function FirstSuccess(cfg: Config, rows: Rows, req: Request, paths: seq<Bytes>): (r: Option<Success>) {
    if paths == [] then None
    else
      var e := FirstEntity(cfg, rows, req, paths[0], Candidates(req));
      if e.Some? then Some(Success(paths[0], e.value)) else FirstSuccess(cfg, rows, req, paths[1..])
  }

  function NotedIf(cfg: Config, rows: Rows, req: Request, success: Option<Success>, env: Env): (r: Rows) {
    if success.None? then rows else Noted(cfg, rows, req, success.value.entity, success.value.path, env)
  }

  /** What authorize makes of the store. */
  function Authorized(cfg: Config, rows: Rows, req: Request, env: Env): (r: Rows) {
    if CacheGrants(cfg, rows, req) then rows
    else NotedIf(cfg, rows, req, FirstSuccess(cfg, rows, req, TriedPaths(cfg.subpaths, req.resource.val)), env)
  }

  lemma {:induction false} FirstEntityGranted(cfg: Config, rows: Rows, req: Request, path: Bytes, entities: seq<Bytes>)
    ensures var e := FirstEntity(cfg, rows, req, path, entities);
            && (e.Some? ==> e.value in entities && GrantsAt(cfg, rows, req, e.value, path))
            && (e.None? ==> forall x :: x in entities ==> !GrantsAt(cfg, rows, req, x, path))
  {
    if entities != [] { FirstEntityGranted(cfg, rows, req, path, entities[1..]); }
  }

  lemma PathGrantsIff(cfg: Config, rows: Rows, req: Request, path: Bytes)
    ensures PathGrants(cfg, rows, req, path) <==> FirstEntity(cfg, rows, req, path, Candidates(req)).Some?
  {
    FirstEntityGranted(cfg, rows, req, path, Candidates(req));
  }

  /** The walk stops at a success exactly if some path and candidate grant. */
  lemma {:induction false} FirstSuccessGranted(cfg: Config, rows: Rows, req: Request, paths: seq<Bytes>)
    ensures var s := FirstSuccess(cfg, rows, req, paths);
            && (s.Some? <==> exists path :: path in paths && PathGrants(cfg, rows, req, path))
            && (s.Some? ==> s.value.path in paths && s.value.entity in Candidates(req)
                            && GrantsAt(cfg, rows, req, s.value.entity, s.value.path))
  {
    if paths != [] {
      PathGrantsIff(cfg, rows, req, paths[0]);
      FirstEntityGranted(cfg, rows, req, paths[0], Candidates(req));
      FirstSuccessGranted(cfg, rows, req, paths[1..]);
    }
  }

  /** Who is asked about at each path, in order: the user, then the entities. */
  lemma CandidatesInOrder(req: Request)
    ensures |Candidates(req)| == 1 + |req.entities| && Candidates(req)[0] == req.user.val
    ensures forall j :: 0 <= j < |req.entities| ==> Candidates(req)[j + 1] == req.entities[j].val
  {
  }

  /** The i-th path is the first at which somebody is granted the request, and
      the j-th candidate is the first one who is. */
  ghost predicate FirstAt(cfg: Config, rows: Rows, req: Request, paths: seq<Bytes>, i: int, j: int) {
    && 0 <= i < |paths| && 0 <= j < |Candidates(req)|
    && GrantsAt(cfg, rows, req, Candidates(req)[j], paths[i])
    && (forall k :: 0 <= k < j ==> !GrantsAt(cfg, rows, req, Candidates(req)[k], paths[i]))
    && (forall h, k :: 0 <= h < i && 0 <= k < |Candidates(req)| ==>
          !GrantsAt(cfg, rows, req, Candidates(req)[k], paths[h]))
  }

  lemma {:induction false} FirstEntityIs(cfg: Config, rows: Rows, req: Request, path: Bytes, cs: seq<Bytes>, j: nat)
    requires j < |cs| && GrantsAt(cfg, rows, req, cs[j], path)
    requires forall k :: 0 <= k < j ==> !GrantsAt(cfg, rows, req, cs[k], path)
    ensures FirstEntity(cfg, rows, req, path, cs) == Some(cs[j])
    decreases |cs|
  {
    if j > 0 {
      assert !GrantsAt(cfg, rows, req, cs[0], path);
      FirstEntityIs(cfg, rows, req, path, cs[1..], j - 1);
    }
  }

  /** The walk stops at the first path, and there at the first candidate. */
  lemma {:induction false} StopsAtFirst(cfg: Config, rows: Rows, req: Request, paths: seq<Bytes>, i: nat, j: nat)
    requires FirstAt(cfg, rows, req, paths, i, j)
    ensures FirstSuccess(cfg, rows, req, paths) == Some(Success(paths[i], Candidates(req)[j]))
    decreases |paths|
  {
    var cs := Candidates(req);
    if i == 0 {
      FirstEntityIs(cfg, rows, req, paths[0], cs, j);
    } else {
      FirstEntityGranted(cfg, rows, req, paths[0], cs);
      assert forall k :: 0 <= k < |cs| ==> !GrantsAt(cfg, rows, req, cs[k], paths[0]);
      assert FirstEntity(cfg, rows, req, paths[0], cs).None?;
      forall h, k | 0 <= h < i - 1 && 0 <= k < |cs| ensures !GrantsAt(cfg, rows, req, cs[k], paths[1..][h]) {
        assert paths[1..][h] == paths[h + 1];
      }
      StopsAtFirst(cfg, rows, req, paths[1..], i - 1, j);
    }
  }

  /** What authorize writes, exactly: nothing on a cache hit or a refusal; after a
      walk the first success, under the key of the request. */
  lemma AuthorizeNotes(cfg: Config, rows: Rows, req: Request, env: Env, i: nat, j: nat)
    ensures CacheGrants(cfg, rows, req) || !WalkGrants(cfg, rows, req) ==> Authorized(cfg, rows, req, env) == rows
    ensures var tried := TriedPaths(cfg.subpaths, req.resource.val);
            !CacheGrants(cfg, rows, req) && FirstAt(cfg, rows, req, tried, i, j) ==>
              Authorized(cfg, rows, req, env) == Noted(cfg, rows, req, Candidates(req)[j], tried[i], env)
  {
    var tried := TriedPaths(cfg.subpaths, req.resource.val);
    FirstSuccessGranted(cfg, rows, req, tried);
    if FirstAt(cfg, rows, req, tried, i, j) { StopsAtFirst(cfg, rows, req, tried, i, j); }
  }

  /** What noting a success changes: with a lifetime of more than a second the row
      under the key of the request, coerced, says who and where; the expiry row
      names that key, at now plus the lifetime; writes that fail change nothing,
      and no other row changes. */
  lemma NotedRead(cfg: Config, rows: Rows, req: Request, entity: Bytes, path: Bytes, env: Env, x: Bytes)
    requires IsCoercion(cfg.fix) && Ascii(env.suffix) && 0 <= env.now + cfg.cacheSeconds < LIMIT
    ensures var r := Spell("ttl:") + Digits(env.now + cfg.cacheSeconds, 15) + Spell(":") + env.suffix;
            Get(Noted(cfg, rows, req, entity, path, env), x) ==
              if cfg.cacheSeconds > 1 && env.cacheSaved && env.ttlSaved && x == r then Some(RequestKey(req))
              else if cfg.cacheSeconds > 1 && env.cacheSaved && x == cfg.fix(RequestKey(req)) then
                Some(Spell("e:") + entity + Spell(":") + req.resource.rune + Spell(":") + path)
              else Get(rows, x)
  {
    var t := env.now + cfg.cacheSeconds;
    TtlKeySpelled(t, env.suffix);
    CacheValueSpelled(entity, req.resource.rune, path);
    assert IsTtl(TtlKey(t, env.suffix), t, env.suffix);
    TtlStable(cfg.fix, TtlKey(t, env.suffix), t, env.suffix);
  }

  /** What a permission's row reads as after permiss: nothing if it is deleted,
      one byte 1 for an action, else the right; the last permission of the batch
      with that key counts, and other keys keep what they had. */
  lemma PermissRead(fix: Coercion, rows: Rows, ps: seq<Permission>, i: nat, k: Bytes)
    requires i < |ps| && k == fix(PermKey(ps[i].entity.val, ps[i].context.rune, ps[i].context.val, ps[i].action))
    requires forall j :: i < j < |ps| ==>
               fix(PermKey(ps[j].entity.val, ps[j].context.rune, ps[j].context.val, ps[j].action)) != k
    ensures Get(Written(fix, rows, ps), k) ==
            if ps[i].delete then None else if |ps[i].action.val| > 0 then Some([1]) else ps[i].right
  {
    LastPairCounts(fix, rows, PermBatch(ps), i);
  }

  lemma PermissSpares(fix: Coercion, rows: Rows, ps: seq<Permission>, k: Bytes)
    requires forall j :: 0 <= j < |ps| ==>
               fix(PermKey(ps[j].entity.val, ps[j].context.rune, ps[j].context.val, ps[j].action)) != k
    ensures Get(Written(fix, rows, ps), k) == Get(rows, k)
  {
    PairsUntouched(fix, rows, PermBatch(ps), k);
  }

  /** The query of revoke, coerced like every key that travels as JSON. */
  function UserPrefix(fix: Coercion, user: Bytes): (b: Bytes) {
    fix(C_COLON + user)
  }

  /** revoke: all cache rows whose key begins with the user's name, except
      those whose deletion did not get through. */
  function Revoked(fix: Coercion, rows: Rows, user: Bytes, failed: set<Bytes>): (r: Rows) {
    rows - (Iteration.WithPrefix(rows, UserPrefix(fix, user)).Keys - failed)
  }

  /** revoke removes exactly the rows whose key begins with "c:" and the user's
      name, but for deletes that failed. */
  lemma RevokeExact(fix: Coercion, rows: Rows, user: Bytes, failed: set<Bytes>, k: Bytes)
    ensures Get(Revoked(fix, rows, user, failed), k) ==
            if fix(Spell("c:") + user) <= k && k !in failed then None else Get(rows, k)
  {
    assert Spell("c:") == C_COLON;
  }

  /** So no decision for this user is found any more, whatever was asked. */
  lemma RevokedForgets(fix: Coercion, rows: Rows, user: Bytes, resource: Bytes, action: Typed, right: Option<Bytes>)
    requires IsCoercion(fix) && Stable(fix, user) && Stable(fix, resource)
    ensures fix(CacheKey(user, resource, action, right)) !in Revoked(fix, rows, user, {})
  {
    assert Ascii(C);
    var tail := fix(CacheTail(action, right));
    CacheKeyCoerced(fix, user, resource, action, right);
    assert C_COLON + user == Joined(C, user);
    assert Joined(C, Joined(user, Joined(resource, tail))) == (C_COLON + user) + ([COLON] + Joined(resource, tail));
    RevokeExact(fix, rows, user, {}, fix(CacheKey(user, resource, action, right)));
    assert Spell("c:") == C_COLON;
  }

  // -------------------------------------------------------------- the class

  class KvService {
    const cfg: Config
    const channel: Channel     // how a write gets into the store
    var rows: Rows

    /** The store only ever holds UTF-8 keys. */
    ghost predicate Valid()
      reads this
    {
      channel.Delivers() && channel.fix == cfg.fix && IsCoercion(cfg.fix) && StableRows(cfg.fix, rows)
    }

    constructor (codec: Codec, subpaths: bool, exact: bool, cacheSeconds: int, rows: Rows)
      requires codec.Lawful() && Utf8Rows(codec, rows)
      ensures Valid() && cfg == Config(subpaths, exact, cacheSeconds, codec.coerce) && this.rows == rows
    {
      cfg, channel, this.rows := Config(subpaths, exact, cacheSeconds, codec.coerce), ChannelOf(codec), rows;
      new;
      ChannelDelivers(codec);
    }

    method Permiss(permissions: seq<Permission>)
      requires Valid()
      modifies this
      ensures Valid() && rows == Written(cfg.fix, old(rows), permissions)
    {
      var values: seq<KVData> := [];
      for i := 0 to |permissions|
        invariant |values| == i
        invariant forall j :: 0 <= j < i ==> values[j] == PermData(permissions[j])
      {
        var p := permissions[i];
        var v := if p.action.val != [] then Some([1]) else p.right;
        values := values + [KVData(PermKey(p.entity.val, p.context.rune, p.context.val, p.action),
            if p.delete then None else v)];
      }
      assert values == PermBatch(permissions);
      OpsStable(cfg.fix, rows, OpsOf(FixedAll(cfg.fix, values)));
      rows := channel.all(rows, values);
    }

    /** checkPermission: read one row and compare. */
    method Check(key: Bytes, want: Option<Bytes>) returns (ok: bool)
      ensures ok == Grants(cfg.exact, Get(rows, key), want)
    {
      ok := CheckPermission(cfg.exact, Get(rows, key), want);
    }

    /** hit: the cached value, empty for a miss. */
    method Hit(req: Request) returns (c: Bytes)
      ensures c == if RequestKey(req) in rows then rows[RequestKey(req)] else []
    {
      c := if RequestKey(req) in rows then rows[RequestKey(req)] else [];
    }

    method Ttl(key: Bytes, env: Env)
      requires Valid() && cfg.cacheSeconds > 0
      modifies this
      ensures Valid() && rows == if env.ttlSaved then
                old(rows)[cfg.fix(TtlKey(env.now + cfg.cacheSeconds, env.suffix)) := key] else old(rows)
    {
      if env.ttlSaved {
        rows := channel.one(rows, KVData(TtlKey(env.now + cfg.cacheSeconds, env.suffix), Some(key)));
      }
    }

    method Cache(req: Request, entity: Bytes, path: Bytes, env: Env)
      requires Valid()
      modifies this
      ensures Valid() && rows == Noted(cfg, old(rows), req, entity, path, env)
    {
      if cfg.cacheSeconds <= 1 {
        return;
      }
      if env.cacheSaved {
        var k := RequestKey(req);
        rows := channel.one(rows, KVData(k, Some(CacheValue(entity, req.resource.rune, path))));
        Ttl(k, env);
      }
    }

    /** The first part of authorize: believe the cache if the row it points
        to still passes. */
    method TryCache(req: Request) returns (ok: bool)
      ensures ok == CacheGrants(cfg, rows, req)
    {
      var c := [];
      if cfg.cacheSeconds > 0 {
        c := Hit(req);
      }
      if |c| == 0 {
        return false;
      }
      var parts := Split(c, COLON);
      if |parts| != 4 {
        return false;
      }
      var found := parts[1] == req.user.val;
      if !found {
        for i := 0 to |req.entities|
          invariant found <==> exists j :: 0 <= j < i && parts[1] == req.entities[j].val
        {
          if parts[1] == req.entities[i].val {
            found := true;
          }
        }
      }
      assert found <==> parts[1] in Candidates(req) by { CandidateIndexes(req, parts[1]); }
      if !found {
        return false;
      }
      ok := Check(HitKey(c, req.action), Want(req));
    }

    /** One path of the walk: the user first, then every other entity. */
    method TryPath(req: Request, path: Bytes, env: Env) returns (ok: bool)
      requires Valid()
      modifies this
      ensures Valid()
      ensures var e := FirstEntity(cfg, old(rows), req, path, Candidates(req));
              ok == e.Some? && rows == if ok then Noted(cfg, old(rows), req, e.value, path, env) else old(rows)
    {
      ghost var before, cs := rows, Candidates(req);
      ok := Check(PermKey(req.user.val, req.resource.rune, LookupContext(path), req.action), Want(req));
      if ok {
        Cache(req, req.user.val, path, env);
        return;
      }
      for i := 0 to |req.entities|
        invariant rows == before && !ok
        invariant FirstEntity(cfg, before, req, path, cs) == FirstEntity(cfg, before, req, path, cs[i + 1..])
      {
        var e := req.entities[i].val;
        assert cs[i + 1..][0] == e && cs[i + 1..][1..] == cs[i + 2..];
        if e == req.user.val {
          continue;
        }
        ok := Check(PermKey(e, req.resource.rune, LookupContext(path), req.action), Want(req));
        if ok {
          Cache(req, e, path, env);
          return;
        }
      }
    }

    /** The loop of the walk, with the paths it goes through given as `tried`. */
    method WalkParts(req: Request, env: Env, parts: seq<Bytes>, start: Bytes, ghost tried: seq<Bytes>)
      returns (ok: bool)
      requires |tried| == |parts| > 0 && tried[0] == start
      requires forall i :: 0 < i < |parts| ==> tried[i] == Field(tried[i - 1], SLASH, parts[i])
      requires Valid()
      modifies this
      ensures Valid()
      ensures ok == FirstSuccess(cfg, old(rows), req, tried).Some?
      ensures rows == NotedIf(cfg, old(rows), req, FirstSuccess(cfg, old(rows), req, tried), env)
    {
      ghost var before := rows;
      var path := start;
      assert tried[0..] == tried;
      for idx := 0 to |parts|
        invariant rows == before
        invariant path == if idx == 0 then tried[0] else tried[idx - 1]
        invariant FirstSuccess(cfg, before, req, tried) == FirstSuccess(cfg, before, req, tried[idx..])
      {
        if idx > 0 {
          path := Field(path, SLASH, parts[idx]);
        }
        assert tried[idx..][0] == path && tried[idx..][1..] == tried[idx + 1..];
        ok := TryPath(req, path, env);
        if ok {
          return;
        }
      }
      return false;
    }

    /** The walk of authorize over growing paths. */
    method Walk(req: Request, env: Env) returns (ok: bool)
      requires Valid()
      modifies this
      ensures Valid()
      ensures ok == WalkGrants(cfg, old(rows), req)
      ensures var paths := TriedPaths(cfg.subpaths, req.resource.val);
              rows == NotedIf(cfg, old(rows), req, FirstSuccess(cfg, old(rows), req, paths), env)
    {
      var parts: seq<Bytes>;
      var path: Bytes := [];
      if cfg.subpaths {
        parts := Split(req.resource.val, SLASH);
      } else {
        path := req.resource.val;
        parts := [path];
      }
      TriedByParts(cfg.subpaths, req.resource.val, parts);
      FirstSuccessGranted(cfg, rows, req, TriedPaths(cfg.subpaths, req.resource.val));
      ok := WalkParts(req, env, parts, path, TriedPaths(cfg.subpaths, req.resource.val));
    }

    /** authorize: the cache first, then the walk. */
    method Authorize(req: Request, env: Env) returns (ok: bool)
      requires Valid()
      modifies this
      ensures Valid()
      ensures ok == (CacheGrants(cfg, old(rows), req) || WalkGrants(cfg, old(rows), req))
      ensures rows == Authorized(cfg, old(rows), req, env)
    {
      ok := TryCache(req);
      if !ok {
        ok := Walk(req, env);
      }
    }

    /** prune; it gives up after `through` writes, if it needs more. */
    method Prune(now: nat, order: seq<Bytes>, through: nat) returns (ok: bool)
      requires Valid() && Lists(order, Expired(rows, now).Keys)
      modifies this
      ensures Valid() && rows == PrunedFor(cfg.fix, old(rows), now, order, through)
      ensures ok ==> rows == Pruned(cfg.fix, old(rows), now)
      ensures ok <==> 2 * |order| <= through
    {
      SweptForWithin(cfg.fix, rows, Expired(rows, now), order, through);
      var rows';
      rows', ok := Expiry.Prune(channel, rows, now, order, through);
      rows := rows';
    }

    /** revoke, with the scanned rows in the order Go ranges over them;
        `failed` are the keys whose deletion does not get through. */
    method Revoke(user: Bytes, order: seq<Bytes>, failed: set<Bytes>)
      requires Valid() && Lists(order, Iteration.WithPrefix(rows, UserPrefix(cfg.fix, user)).Keys)
      modifies this
      ensures Valid() && rows == Revoked(cfg.fix, old(rows), user, failed)
    {
      var items := Iteration.Scan(rows, UserPrefix(cfg.fix, user));
      ScannedKeys(cfg.fix, rows, user);
      assert Handled(order, failed) == items.Keys - failed;
      var rows' := DropEach(channel, rows, order, failed);
      rows := rows';
    }
  }

  function Handled(order: seq<Bytes>, failed: set<Bytes>): (ks: set<Bytes>) {
    set k | k in order && k !in failed
  }

  lemma HandledSnoc(rows: Rows, order: seq<Bytes>, failed: set<Bytes>, m: nat)
    requires m < |order|
    ensures rows - Handled(order[..m + 1], failed) ==
            if order[m] in failed then rows - Handled(order[..m], failed)
            else rows - Handled(order[..m], failed) - {order[m]}
  {
    assert order[..m + 1] == order[..m] + [order[m]];
    assert Handled(order[..m + 1], failed) == Handled(order[..m], failed) + ({order[m]} - failed);
  }

  /** revoke's loop: it goes on after a delete that fails. */
  method DropEach(ch: Channel, rows: Rows, order: seq<Bytes>, failed: set<Bytes>) returns (rows': Rows)
    requires ch.Delivers() && forall k :: k in order ==> Stable(ch.fix, k) && k != []
    ensures rows' == rows - Handled(order, failed)
  {
    rows' := rows;
    assert Handled(order[..0], failed) == {};
    for m := 0 to |order|
      invariant rows' == rows - Handled(order[..m], failed)
    {
      HandledSnoc(rows, order, failed, m);
      var i := order[m];
      assert i in order;
      if i !in failed {
        rows' := Drop(ch, rows', i);
      }
    }
    assert order[..|order|] == order;
  }

  lemma ScannedKeys(fix: Coercion, rows: Rows, user: Bytes)
    requires IsCoercion(fix) && StableRows(fix, rows)
    ensures forall k :: k in Iteration.WithPrefix(rows, UserPrefix(fix, user)) ==> Stable(fix, k) && k != []
  {
    assert C_COLON + user != [];
  }

  lemma NamedBefore(fix: Coercion, rows: Rows, after: Rows, r: Bytes, t: nat, suffix: Bytes, now: nat, k: Bytes)
    requires IsTtl(r, t, suffix) && now < LIMIT && now <= t
    requires NamedByExpired(fix, after, now, k) && !ExpiresBefore(k, now)
    requires forall x :: x in after && x != k && x != r ==> x in rows && rows[x] == after[x]
    ensures NamedByExpired(fix, rows, now, k)
  {
    var x :| x in after && ExpiresBefore(x, now) && after[x] != [] && fix(after[x]) == k;
    SameTime(x, r, t, suffix, now);
  }

  /** What cache and ttl note lasts until the lifetime has passed, and not
      beyond the next sweep after it. */
  lemma NotedExpires(cfg: Config, rows: Rows, req: Request, entity: Bytes, path: Bytes, env: Env, now: nat)
    requires IsCoercion(cfg.fix) && TtlShaped(rows) && env.cacheSaved && env.ttlSaved && Ascii(env.suffix)
    requires 1 < cfg.cacheSeconds && env.now + cfg.cacheSeconds < LIMIT && now < LIMIT
    requires TtlKey(env.now + cfg.cacheSeconds, env.suffix) !in rows
    ensures var k := cfg.fix(RequestKey(req)); var after := Noted(cfg, rows, req, entity, path, env);
            && Get(after, k) == Some(CacheValue(entity, req.resource.rune, path))
            && (env.now + cfg.cacheSeconds < now ==> k !in Pruned(cfg.fix, after, now))
            && (now <= env.now + cfg.cacheSeconds && !NamedByExpired(cfg.fix, rows, now, k) ==>
                  Get(Pruned(cfg.fix, after, now), k) == Get(after, k))
  {
    var k, t := cfg.fix(RequestKey(req)), env.now + cfg.cacheSeconds;
    var r := TtlKey(t, env.suffix);
    var after := Noted(cfg, rows, req, entity, path, env);
    assert IsTtl(r, t, env.suffix);
    TtlStable(cfg.fix, r, t, env.suffix);
    NotedFamilies(cfg, req, t, env.suffix);
    assert TtlShaped(after);
    PruneExact(cfg.fix, after, now, k);
    if t < now { assert after[r] == RequestKey(req) && ExpiresBefore(r, now); }
    if t >= now && NamedByExpired(cfg.fix, after, now, k) {
      NamedBefore(cfg.fix, rows, after, r, t, env.suffix, now, k);
    }
  }

  lemma NotedRow(cfg: Config, rows: Rows, req: Request, entity: Bytes, path: Bytes, env: Env)
    requires IsCoercion(cfg.fix) && env.cacheSaved && Ascii(env.suffix)
    requires 1 < cfg.cacheSeconds && env.now + cfg.cacheSeconds < LIMIT
    ensures Get(Noted(cfg, rows, req, entity, path, env), cfg.fix(RequestKey(req))) ==
            Some(CacheValue(entity, req.resource.rune, path))
  {
    var t := env.now + cfg.cacheSeconds;
    assert IsTtl(TtlKey(t, env.suffix), t, env.suffix);
    TtlStable(cfg.fix, TtlKey(t, env.suffix), t, env.suffix);
    NotedFamilies(cfg, req, t, env.suffix);
  }

  lemma NotedFamilies(cfg: Config, req: Request, t: nat, suffix: Bytes)
    requires IsCoercion(cfg.fix)
    ensures var k, r := cfg.fix(RequestKey(req)), TtlKey(t, suffix);
            k != r && !HasPrefix(k, TTL) && HasPrefix(r, TTL) && RequestKey(req) != []
            && forall now: nat :: !ExpiresBefore(k, now)
  {
    KeyFamilies([], [], req.resource.val, req.user.val, req.action, req.right, t, suffix);
    PrefixStays(cfg.fix, RequestKey(req), C_COLON);
    Families(cfg.fix(RequestKey(req)));
  }

  /** An expiry key has one time. */
  lemma SameTime(x: Bytes, r: Bytes, t: nat, suffix: Bytes, now: nat)
    requires IsTtl(r, t, suffix) && ExpiresBefore(x, now) && now < LIMIT
    ensures x == r ==> t < now
  {
    var t': nat, suffix' :| IsTtl(x, t', suffix') && t' < now;
    TtlBelowBound(t', suffix', now);
    TtlBelowBound(t, suffix, now);
  }

  lemma CandidateIndexes(req: Request, e: Bytes)
    ensures e in Candidates(req) <==>
            e == req.user.val || exists j :: 0 <= j < |req.entities| && e == req.entities[j].val
  {
    var cs := Candidates(req);
    assert cs[0] == req.user.val;
    if j :| 0 <= j < |req.entities| && e == req.entities[j].val { assert cs[j + 1] == e; }
  }

  /** The growing path of authorize's loop goes through the tried paths. */
  lemma TriedByParts(subpaths: bool, resource: Bytes, parts: seq<Bytes>)
    requires parts == if subpaths then Split(resource, SLASH) else [resource]
    ensures var tried := TriedPaths(subpaths, resource);
            |tried| == |parts| && tried[0] == (if subpaths then [] else resource)
            && forall i :: 0 < i < |parts| ==> tried[i] == Field(tried[i - 1], SLASH, parts[i])
  {
    if subpaths { ExtendSteps([], parts[1..]); }
  }

  lemma {:induction false} ExtendSteps(path: Bytes, parts: seq<Bytes>)
    ensures var all := [path] + Extend(path, parts);
            |all| == |parts| + 1 && forall i :: 0 < i < |all| ==> all[i] == Field(all[i - 1], SLASH, parts[i - 1])
    decreases |parts|
  {
    if parts != [] {
      var next := Field(path, SLASH, parts[0]);
      ExtendSteps(next, parts[1..]);
      var all, rest := [path] + Extend(path, parts), [next] + Extend(next, parts[1..]);
      assert all == [path] + rest;
      forall i | 0 < i < |all| ensures all[i] == Field(all[i - 1], SLASH, parts[i - 1]) {
        if i > 1 { assert all[i] == rest[i - 1] && all[i - 1] == rest[i - 2]; }
      }
    }
  }
}
