/**
 What the permission engine means: an access control list over the fields of
 permissions, with no keys, no cache and no sweeps. In every run of the engine
 authorize answers as that list does.
 */
module Acl {
  import opened ByteStrings
  import opened Commands
  import opened Store
  import opened Rights
  import opened Expiry
  import opened PermKeys
  import opened Paths
  import opened Permissions

  // ------------------------------------------------------ the abstract list

  datatype Grant = Grant(entity: Bytes, rune: Bytes, context: Bytes, action: Typed)

  type List = map<Grant, Bytes>

  /** Without a name, an action is no action. */
  function Normal(a: Typed): (r: Typed) {
    if a.val == [] then Typed([], []) else a
  }

  function GrantOf(p: Permission): (r: Grant) {
    Grant(p.entity.val, p.context.rune, p.context.val, Normal(p.action))
  }

  /** The last word on a grant counts; deleting, or granting a nil right
      without an action, takes it away. */
  function Decide(acl: List, p: Permission): (r: List) {
    if p.delete || (p.action.val == [] && p.right.None?) then acl - {GrantOf(p)}
    else acl[GrantOf(p) := if p.action.val != [] then [1] else p.right.value]
  }

  function DecideAll(acl: List, ps: seq<Permission>): (r: List) {
    if ps == [] then acl else Decide(DecideAll(acl, ps[..|ps| - 1]), ps[|ps| - 1])
  }

  function Value(acl: List, g: Grant): (v: Option<Bytes>) {
    if g in acl then Some(acl[g]) else None
  }

  /** The list has an entry for this path and entity that passes. */
  predicate ListGrants(cfg: Config, acl: List, req: Request, path: Bytes, entity: Bytes) {
    Grants(cfg.exact, Value(acl, Grant(entity, req.resource.rune, LookupContext(path), Normal(req.action))), Want(req))
  }

  /** The list lets some candidate in at some tried path. */
  ghost predicate AclGrants(cfg: Config, acl: List, req: Request) {
    exists path, entity :: path in TriedPaths(cfg.subpaths, req.resource.val) && entity in Candidates(req) &&
      ListGrants(cfg, acl, req, path, entity)
  }

  // ---------------------------------------------- the list, in so many words

  /** A stored right passes for the right asked for: one byte with the lowest
      bit set always does; else both are equally long and, if the check is exact,
      some byte of one shares a bit with the same byte of the other, if not, the
      last byte asked for is at least the last byte stored. */
  predicate Passes(exact: bool, stored: Bytes, asked: Option<Bytes>) {
    && |stored| > 0
    && (|| (|stored| == 1 && (stored[0] as bv8) & 1 != 0)
        || (&& asked.Some? && |asked.value| == |stored|
            && if exact
               then exists i :: 0 <= i < |stored| && (stored[i] as bv8) & (asked.value[i] as bv8) != 0
               else asked.value[|stored| - 1] >= stored[|stored| - 1]))
  }

  lemma PassesIs(exact: bool, row: Option<Bytes>, asked: Option<Bytes>)
    ensures Grants(exact, row, asked) <==> row.Some? && Passes(exact, row.value, asked)
  {
    GrantsMeans(exact, row, asked);
  }

  /** The entry of the list that a request is held against for one entity at one
      path: the root is written "/", and an action without a name is none. */
  function EntryFor(req: Request, path: Bytes, entity: Bytes): (g: Grant) {
    Grant(entity, req.resource.rune, if path == [] then Spell("/") else path,
      if req.action.val == [] then Typed([], []) else req.action)
  }

  /** Whom a request is made for: the user or one of the entities. */
  predicate MadeFor(req: Request, entity: Bytes) {
    entity == req.user.val || exists j :: 0 <= j < |req.entities| && entity == req.entities[j].val
  }

  /** A path that covers a resource: with sub-paths every prefix that ends before
      a slash, or at the end, of the resource from its first slash on; without
      them the resource itself. */
  ghost predicate Covers(subpaths: bool, resource: Bytes, path: Bytes) {
    if subpaths then CutAtBoundary(resource[IndexOf(resource, SLASH)..], path) else path == resource
  }

  /** The list lets the request in: somebody it is made for has, at some path
      that covers the resource, an entry that passes. An action is asked for with
      the single byte 1. */
  ghost predicate Admitted(cfg: Config, acl: List, req: Request) {
    exists path, entity ::
      Covers(cfg.subpaths, req.resource.val, path) && MadeFor(req, entity)
      && EntryFor(req, path, entity) in acl
      && Passes(cfg.exact, acl[EntryFor(req, path, entity)], if req.action.val != [] then Some([1]) else req.right)
  }

  lemma ListGrantsMeans(cfg: Config, acl: List, req: Request, path: Bytes, entity: Bytes)
    ensures ListGrants(cfg, acl, req, path, entity) <==>
              && EntryFor(req, path, entity) in acl
              && Passes(cfg.exact, acl[EntryFor(req, path, entity)],
                   if req.action.val != [] then Some([1]) else req.right)
  {
    assert Spell("/") == ROOT;
    PassesIs(cfg.exact, Value(acl, EntryFor(req, path, entity)),
      if req.action.val != [] then Some([1]) else req.right);
  }

  lemma TriedCovers(subpaths: bool, resource: Bytes, path: Bytes)
    ensures path in TriedPaths(subpaths, resource) <==> Covers(subpaths, resource, path)
  {
    if subpaths { TriedExactly(resource, path); }
  }

  lemma AclGrantsMeans(cfg: Config, acl: List, req: Request)
    ensures AclGrants(cfg, acl, req) <==> Admitted(cfg, acl, req)
  {
    forall path, entity
      ensures path in TriedPaths(cfg.subpaths, req.resource.val) && entity in Candidates(req)
              && ListGrants(cfg, acl, req, path, entity) <==>
                && Covers(cfg.subpaths, req.resource.val, path) && MadeFor(req, entity)
                && EntryFor(req, path, entity) in acl
                && Passes(cfg.exact, acl[EntryFor(req, path, entity)],
                     if req.action.val != [] then Some([1]) else req.right)
    {
      TriedCovers(cfg.subpaths, req.resource.val, path);
      CandidateIndexes(req, entity);
      ListGrantsMeans(cfg, acl, req, path, entity);
    }
  }

  /** No permission of the list from position i on is about this entry. */
  predicate Undecided(ps: seq<Permission>, i: nat, g: Grant) {
    forall j :: i <= j < |ps| ==> GrantOf(ps[j]) != g
  }

  lemma {:induction false} NotDecided(acl: List, ps: seq<Permission>, g: Grant)
    requires Undecided(ps, 0, g)
    ensures Value(DecideAll(acl, ps), g) == Value(acl, g)
  {
    if ps != [] { NotDecided(acl, ps[..|ps| - 1], g); }
  }

  /** The last word on an entry counts: it is gone if that deletes it, or grants
      no right and no action; else it holds one byte 1 for an action and the right
      otherwise. */
  lemma {:induction false} LastWord(acl: List, ps: seq<Permission>, i: nat)
    requires i < |ps| && Undecided(ps, i + 1, GrantOf(ps[i]))
    ensures GrantOf(ps[i]) == Grant(ps[i].entity.val, ps[i].context.rune, ps[i].context.val,
                                if ps[i].action.val == [] then Typed([], []) else ps[i].action)
    ensures Value(DecideAll(acl, ps), GrantOf(ps[i])) ==
            if ps[i].delete then None else if ps[i].action.val != [] then Some([1]) else ps[i].right
    decreases |ps|
  {
    var n := |ps| - 1;
    if i < n { LastWord(acl, ps[..n], i); }
  }

  lemma HitReads(cfg: Config, rows: Rows, req: Request, e: Bytes, r: Bytes, c: Bytes)
    requires Plain(e) && Plain(r) && Plain(c)
    requires Get(rows, RequestKey(req)) == Some(Spell("e:") + e + Spell(":") + r + Spell(":") + c)
    ensures CacheGrants(cfg, rows, req) <==>
              && cfg.cacheSeconds > 0 && MadeFor(req, e)
              && Grants(cfg.exact, Get(rows, PermKey(e, r, c, req.action)),
                   if req.action.val != [] then Some([1]) else req.right)
  {
    CacheValueSpelled(e, r, c);
    CacheValueSplits(e, r, c);
    HitReadsPermission(e, r, c, req.action);
    CandidateIndexes(req, e);
  }

  /** When a cached decision is believed: the cache is on, the value names
      somebody the request is made for, and the permission row of the value,
      read now, passes. */
  lemma HitMeans(cfg: Config, rows: Rows, req: Request, e: Bytes, r: Bytes, c: Bytes)
    requires Plain(e) && Plain(r) && Plain(c)
    requires Get(rows, RequestKey(req)) == Some(Spell("e:") + e + Spell(":") + r + Spell(":") + c)
    ensures CacheGrants(cfg, rows, req) <==>
              && cfg.cacheSeconds > 0 && MadeFor(req, e)
              && PermKey(e, r, c, req.action) in rows
              && Passes(cfg.exact, rows[PermKey(e, r, c, req.action)],
                   if req.action.val != [] then Some([1]) else req.right)
  {
    HitReads(cfg, rows, req, e, r, c);
    PassesIs(cfg.exact, Get(rows, PermKey(e, r, c, req.action)),
      if req.action.val != [] then Some([1]) else req.right);
  }

  // ------------------------------------------------------------ clean input

  /** What callers may do: come with one rune for each resource name only,
      store permissions with an empty context, put colons in names. */
  datatype World = World(runes: Bytes -> Bytes, oneRune: bool, emptyContexts: bool, colons: bool)

  /** Names come out of JSON documents, so they are valid UTF-8. */
  predicate Name(cfg: Config, w: World, b: Bytes) {
    Stable(cfg.fix, b) && (w.colons || Plain(b))
  }

  predicate CleanGrant(cfg: Config, w: World, g: Grant) {
    && Name(cfg, w, g.entity) && Name(cfg, w, g.rune) && Name(cfg, w, g.context)
    && Name(cfg, w, g.action.rune) && Stable(cfg.fix, g.action.val) && g.action == Normal(g.action)
  }

  predicate CleanPermission(cfg: Config, w: World, p: Permission) {
    CleanGrant(cfg, w, GrantOf(p)) && (w.emptyContexts || p.context.val != [])
  }

  ghost predicate CleanRequest(cfg: Config, w: World, req: Request) {
    && (forall e :: e in Candidates(req) ==> Name(cfg, w, e))
    && Name(cfg, w, req.resource.val) && Name(cfg, w, req.resource.rune)
    && Name(cfg, w, Normal(req.action).rune) && Stable(cfg.fix, Normal(req.action).val)
    && (w.oneRune ==> req.resource.rune == w.runes(req.resource.val))
  }

  /** The coercion is one, and names hold no colons. */
  ghost predicate Regular(cfg: Config, w: World) {
    IsCoercion(cfg.fix) && !w.colons
  }

  // ----------------------------------------- permission rows spell the list

  function KeyOf(g: Grant): (b: Bytes) {
    PermKey(g.entity, g.rune, g.context, g.action)
  }

  ghost predicate Agree(cfg: Config, w: World, rows: Rows, acl: List) {
    forall g :: CleanGrant(cfg, w, g) ==> Get(rows, KeyOf(g)) == Value(acl, g)
  }

  lemma SameKey(p: Permission)
    ensures PermData(p).key == KeyOf(GrantOf(p))
  {
  }

  lemma KeyStable(cfg: Config, w: World, g: Grant)
    requires IsCoercion(cfg.fix) && CleanGrant(cfg, w, g)
    ensures Stable(cfg.fix, KeyOf(g))
  {
    PermKeyStable(cfg.fix, g.entity, g.rune, g.context, g.action);
  }

  lemma FixedPerm(cfg: Config, w: World, p: Permission)
    requires Regular(cfg, w) && CleanGrant(cfg, w, GrantOf(p))
    ensures Fixed(cfg.fix, PermData(p)) == PermData(p)
  {
    SameKey(p);
    KeyStable(cfg, w, GrantOf(p));
  }

  lemma DecideAgrees(cfg: Config, w: World, rows: Rows, acl: List, p: Permission)
    requires !w.colons && Agree(cfg, w, rows, acl) && CleanGrant(cfg, w, GrantOf(p))
    ensures Agree(cfg, w, Apply(rows, OpOf(PermData(p))), Decide(acl, p))
  {
    SameKey(p);
    var h := GrantOf(p);
    forall g | CleanGrant(cfg, w, g)
      ensures Get(Apply(rows, OpOf(PermData(p))), KeyOf(g)) == Value(Decide(acl, p), g)
    {
      if KeyOf(g) == KeyOf(h) {
        PermKeyUnique(g.entity, g.rune, g.context, g.action, h.entity, h.rune, h.context, h.action);
        assert g == h;
      } else {
        assert g != h && Get(rows, KeyOf(g)) == Value(acl, g);
      }
    }
  }

  lemma BatchSnoc(fix: Coercion, ps: seq<Permission>)
    requires ps != []
    ensures var n := |ps| - 1; var ops := OpsOf(FixedAll(fix, PermBatch(ps)));
            ops[..n] == OpsOf(FixedAll(fix, PermBatch(ps[..n]))) && ops[n] == OpOf(Fixed(fix, PermData(ps[n])))
  {
  }

  lemma WrittenStep(fix: Coercion, rows: Rows, ps: seq<Permission>)
    requires ps != []
    ensures Written(fix, rows, ps) ==
            Apply(Written(fix, rows, ps[..|ps| - 1]), OpOf(Fixed(fix, PermData(ps[|ps| - 1]))))
  {
    BatchSnoc(fix, ps);
  }

  lemma {:induction false} WrittenAgrees(cfg: Config, w: World, rows: Rows, acl: List, ps: seq<Permission>)
    requires Regular(cfg, w) && Agree(cfg, w, rows, acl)
    requires forall i :: 0 <= i < |ps| ==> CleanGrant(cfg, w, GrantOf(ps[i]))
    ensures Agree(cfg, w, Written(cfg.fix, rows, ps), DecideAll(acl, ps))
  {
    if ps != [] {
      var init := ps[..|ps| - 1];
      WrittenStep(cfg.fix, rows, ps);
      WrittenAgrees(cfg, w, rows, acl, init);
      FixedPerm(cfg, w, ps[|ps| - 1]);
      DecideAgrees(cfg, w, Written(cfg.fix, rows, init), DecideAll(acl, init), ps[|ps| - 1]);
    }
  }

  lemma PermFamily(fix: Coercion, rows: Rows, p: Permission, k: Bytes)
    requires IsCoercion(fix) && !HasPrefix(k, P_COLON)
    ensures Get(Apply(rows, OpOf(Fixed(fix, PermData(p)))), k) == Get(rows, k)
  {
    KeyFamilies(p.entity.val, p.context.rune, p.context.val, [], p.action, None, 0, []);
    PrefixStays(fix, PermData(p).key, P_COLON);
  }

  /** Writing permissions touches no other family of keys. */
  lemma {:induction false} WrittenFrame(fix: Coercion, rows: Rows, ps: seq<Permission>, k: Bytes)
    requires IsCoercion(fix) && !HasPrefix(k, P_COLON)
    ensures Get(Written(fix, rows, ps), k) == Get(rows, k)
  {
    if ps != [] {
      var init := ps[..|ps| - 1];
      WrittenStep(fix, rows, ps);
      WrittenFrame(fix, rows, init, k);
      PermFamily(fix, Written(fix, rows, init), ps[|ps| - 1], k);
    }
  }

  // ------------------------------------------------------------ cache rows

  /** Who asked for what when a cache row was written. */
  datatype Origin = Origin(user: Bytes, resource: Bytes, rune: Bytes, action: Typed, right: Option<Bytes>,
      entity: Bytes, path: Bytes)

  ghost predicate From(cfg: Config, w: World, k: Bytes, v: Bytes, o: Origin) {
    && Name(cfg, w, o.user) && Name(cfg, w, o.resource) && Name(cfg, w, o.entity) && Name(cfg, w, o.rune)
    && cfg.cacheSeconds > 1 && (w.oneRune ==> o.rune == w.runes(o.resource))
    && k == cfg.fix(CacheKey(o.user, o.resource, o.action, o.right))
    && o.path in TriedPaths(cfg.subpaths, o.resource)
    && v == CacheValue(o.entity, o.rune, o.path)
  }

  ghost predicate CacheInv(cfg: Config, w: World, rows: Rows) {
    forall k :: k in rows && HasPrefix(k, C_COLON) ==> exists o :: From(cfg, w, k, rows[k], o)
  }

  ghost predicate TtlInv(rows: Rows) {
    TtlShaped(rows) && forall k :: k in rows && HasPrefix(k, TTL) ==> HasPrefix(rows[k], C_COLON)
  }

  /** A permission stored with an empty context, which the walk never reads. */
  ghost predicate EmptyContextGrants(cfg: Config, rows: Rows, req: Request) {
    exists entity :: entity in Candidates(req) &&
      Grants(cfg.exact, Get(rows, PermKey(entity, req.resource.rune, [], req.action)), Want(req))
  }

  /** What is cached under a request's key was cached for the same user and
      resource. */
  lemma OriginIsSame(cfg: Config, w: World, req: Request, v: Bytes, o: Origin)
    requires Regular(cfg, w) && CleanRequest(cfg, w, req) && From(cfg, w, RequestKey(req), v, o)
    ensures o.user == req.user.val && o.resource == req.resource.val
    ensures w.oneRune ==> o.rune == req.resource.rune
  {
    assert req.user.val in Candidates(req) by { CandidateIndexes(req, req.user.val); }
    CacheKeyCoerced(cfg.fix, o.user, o.resource, o.action, o.right);
    UserResourceUnique(o.user, o.resource, cfg.fix(CacheTail(o.action, o.right)),
      req.user.val, req.resource.val, CacheTail(req.action, req.right));
  }

  lemma OriginReads(cfg: Config, w: World, k: Bytes, v: Bytes, o: Origin, action: Typed)
    requires Regular(cfg, w) && From(cfg, w, k, v, o)
    ensures v != [] && Split(v, COLON) == [E, o.entity, o.rune, o.path]
    ensures HitKey(v, action) == PermKey(o.entity, o.rune, o.path, action)
  {
    TriedPlain(cfg.subpaths, o.resource, COLON);
    CacheValueSplits(o.entity, o.rune, o.path);
    HitReadsPermission(o.entity, o.rune, o.path, action);
  }

  /** So a hit reads the permission row of that resource behind it. */
  lemma ValueReadsOrigin(cfg: Config, w: World, rows: Rows, req: Request, v: Bytes, o: Origin)
    requires Regular(cfg, w) && w.oneRune && CleanRequest(cfg, w, req)
    requires From(cfg, w, RequestKey(req), v, o) && ValueGrants(cfg, rows, req, v)
    ensures o.resource == req.resource.val && o.entity in Candidates(req)
    ensures Grants(cfg.exact, Get(rows, PermKey(o.entity, req.resource.rune, o.path, req.action)), Want(req))
  {
    OriginIsSame(cfg, w, req, v, o);
    OriginReads(cfg, w, RequestKey(req), v, o, req.action);
  }

  /** The cache lets nobody in whom the walk does not, unless a permission is
      stored with an empty context. */
  lemma CacheAddsNothing(cfg: Config, w: World, rows: Rows, req: Request)
    requires Regular(cfg, w) && w.oneRune && CacheInv(cfg, w, rows)
    requires CleanRequest(cfg, w, req) && CacheGrants(cfg, rows, req)
    ensures WalkGrants(cfg, rows, req) || EmptyContextGrants(cfg, rows, req)
  {
    var k := RequestKey(req);
    KeyFamilies([], [], req.resource.val, req.user.val, req.action, req.right, 0, []);
    var o :| From(cfg, w, k, rows[k], o);
    ValueReadsOrigin(cfg, w, rows, req, rows[k], o);
    if o.path != [] {
      assert GrantsAt(cfg, rows, req, o.entity, o.path);
      assert PathGrants(cfg, rows, req, o.path);
    }
  }

  // --------------------------------------------------------------- the walk

  /** Tried paths are names, too. */
  lemma PathsAreNames(cfg: Config, w: World, req: Request)
    requires Regular(cfg, w) && CleanRequest(cfg, w, req)
    ensures forall path :: path in TriedPaths(cfg.subpaths, req.resource.val) ==>
              Name(cfg, w, path) && Name(cfg, w, LookupContext(path))
  {
    TriedPlain(cfg.subpaths, req.resource.val, COLON);
    TriedStable(cfg.fix, cfg.subpaths, req.resource.val);
    assert Ascii(ROOT);
  }

  /** One row the walk reads says what the list says. */
  lemma RowSaysList(cfg: Config, w: World, rows: Rows, acl: List, req: Request, path: Bytes, entity: Bytes)
    requires Regular(cfg, w) && Agree(cfg, w, rows, acl) && CleanRequest(cfg, w, req)
    requires path in TriedPaths(cfg.subpaths, req.resource.val) && entity in Candidates(req)
    ensures GrantsAt(cfg, rows, req, entity, path) <==> ListGrants(cfg, acl, req, path, entity)
  {
    PathsAreNames(cfg, w, req);
    var g := Grant(entity, req.resource.rune, LookupContext(path), Normal(req.action));
    assert CleanGrant(cfg, w, g) && KeyOf(g) == PermKey(entity, req.resource.rune, LookupContext(path), req.action);
  }

  lemma WalkReadsList(cfg: Config, w: World, rows: Rows, acl: List, req: Request)
    requires Regular(cfg, w) && Agree(cfg, w, rows, acl) && CleanRequest(cfg, w, req)
    ensures WalkGrants(cfg, rows, req) <==> AclGrants(cfg, acl, req)
  {
    if WalkGrants(cfg, rows, req) {
      var path :| path in TriedPaths(cfg.subpaths, req.resource.val) && PathGrants(cfg, rows, req, path);
      var entity :| entity in Candidates(req) && GrantsAt(cfg, rows, req, entity, path);
      RowSaysList(cfg, w, rows, acl, req, path, entity);
    }
    if AclGrants(cfg, acl, req) {
      var path, entity :| path in TriedPaths(cfg.subpaths, req.resource.val) && entity in Candidates(req) &&
        ListGrants(cfg, acl, req, path, entity);
      RowSaysList(cfg, w, rows, acl, req, path, entity);
      assert GrantsAt(cfg, rows, req, entity, path);
      assert PathGrants(cfg, rows, req, path);
    }
  }

  /** Whoever may use a resource may use everything below it. */
  lemma SubpathsInherit(cfg: Config, rows: Rows, req: Request, below: Bytes)
    requires cfg.subpaths && WalkGrants(cfg, rows, req)
    ensures WalkGrants(cfg, rows, req.(resource := req.resource.(val := Field(req.resource.val, SLASH, below))))
  {
    var lower := req.(resource := req.resource.(val := Field(req.resource.val, SLASH, below)));
    TriedBelow(req.resource.val, below);
    var path :| path in TriedPaths(true, req.resource.val) && PathGrants(cfg, rows, req, path);
    var entity :| entity in Candidates(req) && GrantsAt(cfg, rows, req, entity, path);
    assert Candidates(lower) == Candidates(req);
    assert GrantsAt(cfg, rows, lower, entity, path);
    assert PathGrants(cfg, rows, lower, path);
  }

  // -------------------------------------------------------------- the runs

  datatype Engine = Engine(rows: Rows, acl: List)

  datatype Event =
    | Permit(permissions: seq<Permission>)
    | Ask(req: Request, env: Env)
    | Tidy(now: nat, order: seq<Bytes>, through: nat) // prune, which may stop early
    | Drop(user: Bytes, failed: set<Bytes>)         // revoke
    // the same writes one at a time, however late after the reads behind them
    | Remember(req: Request, entity: Bytes, path: Bytes)
    | Schedule(key: Bytes, time: nat, suffix: Bytes)
    | Remove(key: Bytes)

  ghost predicate Next(cfg: Config, w: World, s: Engine, e: Event, s': Engine) {
    match e
    case Permit(ps) =>
      (forall i :: 0 <= i < |ps| ==> CleanPermission(cfg, w, ps[i])) &&
      s' == Engine(Written(cfg.fix, s.rows, ps), DecideAll(s.acl, ps))
    case Ask(req, env) =>
      CleanRequest(cfg, w, req) && env.now + cfg.cacheSeconds < LIMIT && Ascii(env.suffix) &&
      s' == s.(rows := Authorized(cfg, s.rows, req, env))
    case Tidy(now, order, through) =>
      Lists(order, Expired(s.rows, now).Keys) &&
      s' == s.(rows := PrunedFor(cfg.fix, s.rows, now, order, through))
    case Drop(user, failed) => s' == s.(rows := Revoked(cfg.fix, s.rows, user, failed))
    case Remember(req, entity, path) =>
      CleanRequest(cfg, w, req) && cfg.cacheSeconds > 1 &&
      path in TriedPaths(cfg.subpaths, req.resource.val) && entity in Candidates(req) &&
      s' == s.(rows := s.rows[cfg.fix(RequestKey(req)) := CacheValue(entity, req.resource.rune, path)])
    case Schedule(key, time, suffix) =>
      HasPrefix(key, C_COLON) && time < LIMIT && Ascii(suffix) && s' == s.(rows := s.rows[TtlKey(time, suffix) := key])
    case Remove(key) => !HasPrefix(key, P_COLON) && s' == s.(rows := s.rows - {key})
  }

  ghost predicate Inv(cfg: Config, w: World, s: Engine) {
    && Agree(cfg, w, s.rows, s.acl)
    && CacheInv(cfg, w, s.rows)
    && TtlInv(s.rows)
    && (!w.emptyContexts ==> forall g :: g in s.acl ==> g.context != [])
  }

  /** Nothing new, and every permission row is still there. */
  ghost predicate Shrunk(rows: Rows, rows': Rows) {
    && (forall k :: k in rows' ==> k in rows && rows'[k] == rows[k])
    && (forall k :: k in rows && HasPrefix(k, P_COLON) ==> k in rows')
  }

  lemma ShrunkInv(cfg: Config, w: World, s: Engine, rows': Rows)
    requires Regular(cfg, w) && Inv(cfg, w, s) && Shrunk(s.rows, rows')
    ensures Inv(cfg, w, s.(rows := rows'))
  {
    forall g | CleanGrant(cfg, w, g) ensures Get(rows', KeyOf(g)) == Value(s.acl, g) {
      KeyFamilies(g.entity, g.rune, g.context, [], g.action, None, 0, []);
      assert Get(s.rows, KeyOf(g)) == Value(s.acl, g);
    }
  }

  lemma SweptFamilies(fix: Coercion, rows: Rows, now: nat, r: Bytes, k: Bytes)
    requires IsCoercion(fix) && TtlInv(rows) && r in Expired(rows, now) && HasPrefix(k, P_COLON)
    ensures k !in Gone(fix, r, rows[r])
  {
    assert HasPrefix(SweepBound(now), TTL);
    PrefixConvex(r, SweepBound(now), TTL);
    var t: nat, suffix :| IsTtl(r, t, suffix);
    TtlStable(fix, r, t, suffix);
    PrefixStays(fix, rows[r], C_COLON);
    Families(k);
  }

  lemma TidyShrinks(fix: Coercion, rows: Rows, now: nat, order: seq<Bytes>, through: nat)
    requires IsCoercion(fix) && TtlInv(rows) && Lists(order, Expired(rows, now).Keys)
    ensures Shrunk(rows, PrunedFor(fix, rows, now, order, through))
  {
    var items := Expired(rows, now);
    SweptForWithin(fix, rows, items, order, through);
    forall k | k in rows && HasPrefix(k, P_COLON) ensures k !in AllGone(fix, items) {
      forall r | r in items ensures k !in Gone(fix, r, items[r]) { SweptFamilies(fix, rows, now, r, k); }
    }
  }

  lemma UserPrefixIsCache(fix: Coercion, k: Bytes, user: Bytes)
    requires IsCoercion(fix)
    ensures HasPrefix(k, UserPrefix(fix, user)) ==> HasPrefix(k, C_COLON)
  {
    assert HasPrefix(C_COLON + user, C_COLON);
    PrefixStays(fix, C_COLON + user, C_COLON);
    if HasPrefix(k, UserPrefix(fix, user)) { assert k[..2] == UserPrefix(fix, user)[..2]; }
  }

  lemma DropShrinks(fix: Coercion, rows: Rows, user: Bytes, failed: set<Bytes>)
    requires IsCoercion(fix)
    ensures Shrunk(rows, Revoked(fix, rows, user, failed))
  {
    forall k | k in rows && HasPrefix(k, P_COLON) ensures !HasPrefix(k, UserPrefix(fix, user)) {
      Families(k);
      UserPrefixIsCache(fix, k, user);
    }
  }

  lemma {:induction false} DecideContexts(acl: List, ps: seq<Permission>)
    requires (forall g :: g in acl ==> g.context != []) && forall i :: 0 <= i < |ps| ==> ps[i].context.val != []
    ensures forall g :: g in DecideAll(acl, ps) ==> g.context != []
  {
    if ps != [] { DecideContexts(acl, ps[..|ps| - 1]); }
  }

  lemma PermitInv(cfg: Config, w: World, s: Engine, ps: seq<Permission>)
    requires Regular(cfg, w) && Inv(cfg, w, s) && forall i :: 0 <= i < |ps| ==> CleanPermission(cfg, w, ps[i])
    ensures Inv(cfg, w, Engine(Written(cfg.fix, s.rows, ps), DecideAll(s.acl, ps)))
  {
    WrittenAgrees(cfg, w, s.rows, s.acl, ps);
    if !w.emptyContexts { DecideContexts(s.acl, ps); }
    var rows := Written(cfg.fix, s.rows, ps);
    forall k | k in rows && (HasPrefix(k, C_COLON) || HasPrefix(k, TTL)) ensures k in s.rows && rows[k] == s.rows[k] {
      Families(k);
      WrittenFrame(cfg.fix, s.rows, ps, k);
    }
  }

  lemma CacheRowInv(cfg: Config, w: World, s: Engine, req: Request, entity: Bytes, path: Bytes)
    requires Regular(cfg, w) && Inv(cfg, w, s) && CleanRequest(cfg, w, req)
    requires cfg.cacheSeconds > 1 && path in TriedPaths(cfg.subpaths, req.resource.val) && entity in Candidates(req)
    ensures var v := CacheValue(entity, req.resource.rune, path);
            Inv(cfg, w, s.(rows := s.rows[cfg.fix(RequestKey(req)) := v]))
  {
    var k, v := cfg.fix(RequestKey(req)), CacheValue(entity, req.resource.rune, path);
    var rows := s.rows[k := v];
    KeyFamilies([], [], req.resource.val, req.user.val, req.action, req.right, 0, []);
    PrefixStays(cfg.fix, RequestKey(req), C_COLON);
    Families(k);
    assert req.user.val in Candidates(req) by { CandidateIndexes(req, req.user.val); }
    assert From(cfg, w, k, v, Origin(req.user.val, req.resource.val, req.resource.rune, req.action,
        req.right, entity, path));
    KeepsList(cfg, w, s, k, v);
  }

  /** Rows outside the permission family do not matter to the list. */
  lemma KeepsList(cfg: Config, w: World, s: Engine, k: Bytes, v: Bytes)
    requires Agree(cfg, w, s.rows, s.acl) && !HasPrefix(k, P_COLON)
    ensures Agree(cfg, w, s.rows[k := v], s.acl)
  {
    forall g | CleanGrant(cfg, w, g) ensures Get(s.rows[k := v], KeyOf(g)) == Value(s.acl, g) {
      KeyFamilies(g.entity, g.rune, g.context, [], g.action, None, 0, []);
      assert Get(s.rows, KeyOf(g)) == Value(s.acl, g);
    }
  }

  lemma TtlRowInv(cfg: Config, w: World, s: Engine, t: nat, suffix: Bytes, named: Bytes)
    requires Regular(cfg, w) && Inv(cfg, w, s) && t < LIMIT && Ascii(suffix) && HasPrefix(named, C_COLON)
    ensures Inv(cfg, w, s.(rows := s.rows[TtlKey(t, suffix) := named]))
  {
    var k := TtlKey(t, suffix);
    KeyFamilies([], [], [], [], Typed([], []), None, t, suffix);
    Families(k);
    assert IsTtl(k, t, suffix);
    KeepsList(cfg, w, s, k, named);
  }

  lemma NotedTtlStable(cfg: Config, req: Request, t: nat, suffix: Bytes)
    requires IsCoercion(cfg.fix) && t < LIMIT && Ascii(suffix)
    ensures Stable(cfg.fix, TtlKey(t, suffix)) && HasPrefix(RequestKey(req), C_COLON)
  {
    KeyFamilies([], [], req.resource.val, req.user.val, req.action, req.right, 0, []);
    assert IsTtl(TtlKey(t, suffix), t, suffix);
    TtlStable(cfg.fix, TtlKey(t, suffix), t, suffix);
  }

  lemma NotedInv(cfg: Config, w: World, s: Engine, req: Request, success: Success, env: Env)
    requires Regular(cfg, w) && Inv(cfg, w, s)
    requires CleanRequest(cfg, w, req) && env.now + cfg.cacheSeconds < LIMIT && Ascii(env.suffix)
    requires success.path in TriedPaths(cfg.subpaths, req.resource.val) && success.entity in Candidates(req)
    ensures Inv(cfg, w, s.(rows := Noted(cfg, s.rows, req, success.entity, success.path, env)))
  {
    if cfg.cacheSeconds > 1 && env.cacheSaved {
      CacheRowInv(cfg, w, s, req, success.entity, success.path);
      var v := CacheValue(success.entity, req.resource.rune, success.path);
      var cached := s.(rows := s.rows[cfg.fix(RequestKey(req)) := v]);
      if env.ttlSaved {
        var t := env.now + cfg.cacheSeconds;
        NotedTtlStable(cfg, req, t, env.suffix);
        TtlRowInv(cfg, w, cached, t, env.suffix, RequestKey(req));
        assert Noted(cfg, s.rows, req, success.entity, success.path, env)
            == cached.rows[TtlKey(t, env.suffix) := RequestKey(req)];
      }
    }
  }

  lemma AskInv(cfg: Config, w: World, s: Engine, req: Request, env: Env)
    requires Regular(cfg, w) && Inv(cfg, w, s)
    requires CleanRequest(cfg, w, req) && env.now + cfg.cacheSeconds < LIMIT && Ascii(env.suffix)
    ensures Inv(cfg, w, s.(rows := Authorized(cfg, s.rows, req, env)))
  {
    var tried := TriedPaths(cfg.subpaths, req.resource.val);
    FirstSuccessGranted(cfg, s.rows, req, tried);
    var success := FirstSuccess(cfg, s.rows, req, tried);
    if success.Some? { NotedInv(cfg, w, s, req, success.value, env); }
  }

  lemma NextInv(cfg: Config, w: World, s: Engine, e: Event, s': Engine)
    requires Regular(cfg, w) && Inv(cfg, w, s) && Next(cfg, w, s, e, s')
    ensures Inv(cfg, w, s')
  {
    match e
    case Permit(ps) => PermitInv(cfg, w, s, ps);
    case Ask(req, env) => AskInv(cfg, w, s, req, env);
    case Tidy(now, order, through) =>
      TidyShrinks(cfg.fix, s.rows, now, order, through);
      ShrunkInv(cfg, w, s, s'.rows);
    case Drop(user, failed) =>
      DropShrinks(cfg.fix, s.rows, user, failed);
      ShrunkInv(cfg, w, s, s'.rows);
    case Remember(req, entity, path) => CacheRowInv(cfg, w, s, req, entity, path);
    case Schedule(key, time, suffix) => TtlRowInv(cfg, w, s, time, suffix, key);
    case Remove(key) => ShrunkInv(cfg, w, s, s'.rows);
  }

  ghost predicate Steps(cfg: Config, w: World, s: Engine, s': Engine) {
    exists e :: Next(cfg, w, s, e, s')
  }

  ghost predicate IsRun(cfg: Config, w: World, run: seq<Engine>) {
    |run| > 0 && run[0] == Engine(map[], map[]) && forall i :: 0 < i < |run| ==> Steps(cfg, w, run[i - 1], run[i])
  }

  lemma StepsInv(cfg: Config, w: World, s: Engine, s': Engine)
    requires Regular(cfg, w) && Inv(cfg, w, s) && Steps(cfg, w, s, s')
    ensures Inv(cfg, w, s')
  {
    var e :| Next(cfg, w, s, e, s');
    NextInv(cfg, w, s, e, s');
  }

  lemma {:induction false} RunInv(cfg: Config, w: World, run: seq<Engine>, i: nat)
    requires Regular(cfg, w) && IsRun(cfg, w, run) && i < |run|
    ensures Inv(cfg, w, run[i])
  {
    if i > 0 {
      RunInv(cfg, w, run, i - 1);
      StepsInv(cfg, w, run[i - 1], run[i]);
    }
  }

  lemma NoEmptyContexts(cfg: Config, w: World, s: Engine, req: Request)
    requires Regular(cfg, w) && !w.emptyContexts && Inv(cfg, w, s) && CleanRequest(cfg, w, req)
    ensures !EmptyContextGrants(cfg, s.rows, req)
  {
    assert Ascii([]);
    forall entity | entity in Candidates(req)
      ensures Get(s.rows, PermKey(entity, req.resource.rune, [], req.action)).None?
    {
      var g := Grant(entity, req.resource.rune, [], Normal(req.action));
      assert CleanGrant(cfg, w, g) && KeyOf(g) == PermKey(entity, req.resource.rune, [], req.action);
    }
  }

  /** What a deployment must promise: no cache writes, or one rune for each
      resource and no empty contexts. */
  predicate Sound(cfg: Config, w: World) {
    cfg.cacheSeconds <= 1 || (w.oneRune && !w.emptyContexts)
  }

  /** Main theorem: in every state of every run authorize, with its cache,
      answers exactly as the access control list decided so far, so the cache
      never adds, hides or delays a decision. */
  lemma AuthorizeMeansList(cfg: Config, w: World, run: seq<Engine>, i: nat, req: Request)
    requires Regular(cfg, w) && Sound(cfg, w) && IsRun(cfg, w, run) && i < |run| && CleanRequest(cfg, w, req)
    ensures CacheGrants(cfg, run[i].rows, req) || WalkGrants(cfg, run[i].rows, req) <==> AclGrants(cfg, run[i].acl, req)
    ensures CacheGrants(cfg, run[i].rows, req) ==> WalkGrants(cfg, run[i].rows, req)
  {
    var s := run[i];
    RunInv(cfg, w, run, i);
    WalkReadsList(cfg, w, s.rows, s.acl, req);
    if CacheGrants(cfg, s.rows, req) {
      KeyFamilies([], [], req.resource.val, req.user.val, req.action, req.right, 0, []);
      CacheAddsNothing(cfg, w, s.rows, req);
      NoEmptyContexts(cfg, w, s, req);
    }
  }

  /** The same in so many words, with nothing of the engine in them. */
  lemma AuthorizeAdmits(cfg: Config, w: World, run: seq<Engine>, i: nat, req: Request)
    requires Regular(cfg, w) && Sound(cfg, w) && IsRun(cfg, w, run) && i < |run| && CleanRequest(cfg, w, req)
    ensures CacheGrants(cfg, run[i].rows, req) || WalkGrants(cfg, run[i].rows, req) <==> Admitted(cfg, run[i].acl, req)
  {
    AuthorizeMeansList(cfg, w, run, i, req);
    AclGrantsMeans(cfg, run[i].acl, req);
  }

  /** authorize reads the cached value and the row behind it at different
      times; what counts is the list at the time of the second read. */
  lemma HitCountsWhenChecked(cfg: Config, w: World, run: seq<Engine>, i: nat, j: nat, req: Request)
    requires Regular(cfg, w) && Sound(cfg, w) && IsRun(cfg, w, run) && i <= j < |run| && CleanRequest(cfg, w, req)
    requires RequestKey(req) in run[i].rows && ValueGrants(cfg, run[j].rows, req, run[i].rows[RequestKey(req)])
    ensures AclGrants(cfg, run[j].acl, req)
  {
    var k := RequestKey(req);
    var s := run[j];
    RunInv(cfg, w, run, i);
    RunInv(cfg, w, run, j);
    KeyFamilies([], [], req.resource.val, req.user.val, req.action, req.right, 0, []);
    var o :| From(cfg, w, k, run[i].rows[k], o);
    ValueReadsOrigin(cfg, w, s.rows, req, run[i].rows[k], o);
    WalkReadsList(cfg, w, s.rows, s.acl, req);
    if o.path == [] {
      NoEmptyContexts(cfg, w, s, req);
      assert EmptyContextGrants(cfg, s.rows, req);
    } else {
      assert GrantsAt(cfg, s.rows, req, o.entity, o.path);
      assert PathGrants(cfg, s.rows, req, o.path);
    }
  }

  // ---------------------------------------------- a walk spread over time

  /** The row of one entity at one path, read in one state of the run. */
  datatype RowRead = RowRead(path: Bytes, entity: Bytes, at: nat)

  /** A walk reads rows of tried paths and candidates, later and later. */
  ghost predicate SpreadOver(cfg: Config, run: seq<Engine>, req: Request, trace: seq<RowRead>) {
    && (forall k :: 0 <= k < |trace| ==>
          trace[k].at < |run| && trace[k].path in TriedPaths(cfg.subpaths, req.resource.val)
          && trace[k].entity in Candidates(req))
    && (forall k, l :: 0 <= k < l < |trace| ==> trace[k].at <= trace[l].at)
  }

  /** It reads until a row grants. */
  predicate StopsWith(cfg: Config, run: seq<Engine>, req: Request, trace: seq<RowRead>, ok: bool)
    requires forall k :: 0 <= k < |trace| ==> trace[k].at < |run|
  {
    if ok then
      trace != [] && var last := trace[|trace| - 1]; GrantsAt(cfg, run[last.at].rows, req, last.entity, last.path)
    else
      forall k :: 0 <= k < |trace| ==> !GrantsAt(cfg, run[trace[k].at].rows, req, trace[k].entity, trace[k].path)
  }

  /** Before it denies, it has read them all. */
  ghost predicate ReadAll(cfg: Config, req: Request, trace: seq<RowRead>) {
    forall path, entity :: path in TriedPaths(cfg.subpaths, req.resource.val) && entity in Candidates(req) ==>
      exists k :: 0 <= k < |trace| && trace[k].path == path && trace[k].entity == entity
  }

  /** A walk whose rows are read at different times, with anything happening in
      between: a yes is what the list says when the granting row is read, and a
      no was right for each path and candidate when its row was read. */
  lemma SpreadWalkMeans(cfg: Config, w: World, run: seq<Engine>, req: Request, trace: seq<RowRead>, ok: bool)
    requires Regular(cfg, w) && IsRun(cfg, w, run) && CleanRequest(cfg, w, req)
    requires SpreadOver(cfg, run, req, trace) && StopsWith(cfg, run, req, trace, ok)
    ensures ok ==> AclGrants(cfg, run[trace[|trace| - 1].at].acl, req)
    ensures !ok ==> forall k :: 0 <= k < |trace| ==>
              !ListGrants(cfg, run[trace[k].at].acl, req, trace[k].path, trace[k].entity)
  {
    forall k | 0 <= k < |trace|
      ensures GrantsAt(cfg, run[trace[k].at].rows, req, trace[k].entity, trace[k].path) <==>
              ListGrants(cfg, run[trace[k].at].acl, req, trace[k].path, trace[k].entity)
    {
      RunInv(cfg, w, run, trace[k].at);
      RowSaysList(cfg, w, run[trace[k].at].rows, run[trace[k].at].acl, req, trace[k].path, trace[k].entity);
    }
  }

  /** So nobody is denied whom one and the same entry admits all along. */
  lemma LastingGrantIsSeen(cfg: Config, w: World, run: seq<Engine>, req: Request, trace: seq<RowRead>, ok: bool,
      path: Bytes, entity: Bytes)
    requires Regular(cfg, w) && IsRun(cfg, w, run) && CleanRequest(cfg, w, req)
    requires SpreadOver(cfg, run, req, trace) && StopsWith(cfg, run, req, trace, ok) && (ok || ReadAll(cfg, req, trace))
    requires path in TriedPaths(cfg.subpaths, req.resource.val) && entity in Candidates(req)
    requires forall k :: 0 <= k < |trace| ==> ListGrants(cfg, run[trace[k].at].acl, req, path, entity)
    ensures ok
  {
    SpreadWalkMeans(cfg, w, run, req, trace, ok);
  }

  /** With all rows read in one state it is the walk of authorize. */
  lemma AtOneMoment(cfg: Config, run: seq<Engine>, req: Request, trace: seq<RowRead>, ok: bool, m: nat)
    requires SpreadOver(cfg, run, req, trace) && StopsWith(cfg, run, req, trace, ok) && (ok || ReadAll(cfg, req, trace))
    requires m < |run| && forall k :: 0 <= k < |trace| ==> trace[k].at == m
    ensures ok <==> WalkGrants(cfg, run[m].rows, req)
  {
    var rows := run[m].rows;
    if ok {
      var last := trace[|trace| - 1];
      assert PathGrants(cfg, rows, req, last.path);
    } else {
      forall path, entity | path in TriedPaths(cfg.subpaths, req.resource.val) && entity in Candidates(req)
        ensures !GrantsAt(cfg, rows, req, entity, path)
      {
        var k :| 0 <= k < |trace| && trace[k].path == path && trace[k].entity == entity;
      }
    }
  }

  // ------------------------------------------------- what goes wrong without

  ghost predicate Reachable(cfg: Config, w: World, s: Engine) {
    exists run :: IsRun(cfg, w, run) && run[|run| - 1] == s
  }

  /** In every reachable store the cache makes no difference. */
  ghost predicate Transparent(cfg: Config, w: World) {
    forall s, req :: Reachable(cfg, w, s) && CleanRequest(cfg, w, req) && CacheGrants(cfg, s.rows, req) ==>
      WalkGrants(cfg, s.rows, req)
  }

  /** In every reachable store authorize answers as the list. */
  ghost predicate MeansList(cfg: Config, w: World) {
    forall s, req :: Reachable(cfg, w, s) && CleanRequest(cfg, w, req) ==>
      (CacheGrants(cfg, s.rows, req) || WalkGrants(cfg, s.rows, req) <==> Admitted(cfg, s.acl, req))
  }

  lemma RunGrows(cfg: Config, w: World, run: seq<Engine>, s': Engine)
    requires IsRun(cfg, w, run) && Steps(cfg, w, run[|run| - 1], s')
    ensures IsRun(cfg, w, run + [s'])
  {
    var more := run + [s'];
    forall i | 0 < i < |more| ensures Steps(cfg, w, more[i - 1], more[i]) {
      if i < |run| { assert more[i - 1] == run[i - 1] && more[i] == run[i]; }
    }
  }

  lemma ReachNext(cfg: Config, w: World, s: Engine, e: Event, s': Engine)
    requires Reachable(cfg, w, s) && Next(cfg, w, s, e, s')
    ensures Reachable(cfg, w, s')
  {
    assert Steps(cfg, w, s, s');
    ReachStep(cfg, w, s, s');
  }

  lemma ReachStep(cfg: Config, w: World, s: Engine, s': Engine)
    requires Reachable(cfg, w, s) && Steps(cfg, w, s, s')
    ensures Reachable(cfg, w, s')
  {
    var run :| IsRun(cfg, w, run) && run[|run| - 1] == s;
    RunGrows(cfg, w, run, s');
    assert (run + [s'])[|run + [s']| - 1] == s';
  }

  lemma ReachableInv(cfg: Config, w: World, s: Engine)
    requires Regular(cfg, w) && Reachable(cfg, w, s)
    ensures Inv(cfg, w, s)
  {
    var run :| IsRun(cfg, w, run) && run[|run| - 1] == s;
    RunInv(cfg, w, run, |run| - 1);
  }

  const NOTHING: Typed := Typed([], [])

  function OneGrant(user: Bytes, rune: Bytes, context: Bytes, delete: bool): (r: Permission) {
    Permission(Typed(user, []), Typed(context, rune), NOTHING, Some([1]), delete)
  }

  /** A name in any world. */
  predicate Fine(cfg: Config, b: Bytes) {
    Stable(cfg.fix, b) && Plain(b)
  }

  /** The permission row of a clean grant is what the list says. */
  lemma RowOf(cfg: Config, w: World, s: Engine, user: Bytes, rune: Bytes, context: Bytes)
    requires Regular(cfg, w) && Reachable(cfg, w, s) && Fine(cfg, user) && Fine(cfg, rune) && Fine(cfg, context)
    ensures Get(s.rows, PermKey(user, rune, context, NOTHING)) == Value(s.acl, Grant(user, rune, context, NOTHING))
  {
    var g := Grant(user, rune, context, NOTHING);
    ReachableInv(cfg, w, s);
    assert Ascii([]);
    assert CleanGrant(cfg, w, g) && KeyOf(g) == PermKey(user, rune, context, NOTHING);
  }

  lemma PermitOne(cfg: Config, w: World, s: Engine, user: Bytes, rune: Bytes, context: Bytes, delete: bool,
      kept: Bytes) returns (s': Engine)
    requires IsCoercion(cfg.fix) && Reachable(cfg, w, s) && (w.emptyContexts || context != [])
    requires Fine(cfg, user) && Fine(cfg, rune) && Fine(cfg, context)
    requires HasPrefix(kept, C_COLON)
    ensures Reachable(cfg, w, s')
    ensures var g := Grant(user, rune, context, NOTHING); s'.acl == if delete then s.acl - {g} else s.acl[g := [1]]
    ensures Get(s'.rows, kept) == Get(s.rows, kept)
  {
    var p := OneGrant(user, rune, context, delete);
    assert Ascii([]) && [p][..0] == [];
    assert DecideAll(s.acl, [p]) == Decide(s.acl, p);
    s' := Engine(Written(cfg.fix, s.rows, [p]), Decide(s.acl, p));
    ReachNext(cfg, w, s, Permit([p]), s');
    Families(kept);
    WrittenFrame(cfg.fix, s.rows, [p], kept);
  }

  /** The walk for a lone user stops at the first path whose row is there. */
  lemma {:induction false} StopsAt(cfg: Config, rows: Rows, req: Request, path: Bytes, paths: seq<Bytes>)
    requires req.entities == [] && path in paths && GrantsAt(cfg, rows, req, req.user.val, path)
    requires forall p :: p in paths && p != path ==> !GrantsAt(cfg, rows, req, req.user.val, p)
    ensures FirstSuccess(cfg, rows, req, paths) == Some(Success(path, req.user.val))
  {
    assert Candidates(req) == [req.user.val];
    assert FirstEntity(cfg, rows, req, paths[0], Candidates(req)) ==
           if paths[0] == path then Some(req.user.val) else FirstEntity(cfg, rows, req, paths[0], []);
    if paths[0] != path { StopsAt(cfg, rows, req, path, paths[1..]); }
  }

  /** In the rows, as in the list, one path of a lone user's walk is granted. */
  ghost predicate OnlyAt(cfg: Config, acl: List, req: Request, path: Bytes) {
    && req.entities == [] && req.action == NOTHING
    && path in TriedPaths(cfg.subpaths, req.resource.val)
    && Value(acl, Grant(req.user.val, req.resource.rune, LookupContext(path), NOTHING)) == Some([1])
    && forall p :: p in TriedPaths(cfg.subpaths, req.resource.val) && p != path ==>
         Grant(req.user.val, req.resource.rune, LookupContext(p), NOTHING) !in acl
  }

  lemma OnlySuccess(cfg: Config, w: World, s: Engine, req: Request, path: Bytes)
    requires Regular(cfg, w) && Reachable(cfg, w, s) && CleanRequest(cfg, w, req) && OnlyAt(cfg, s.acl, req, path)
    ensures FirstSuccess(cfg, s.rows, req, TriedPaths(cfg.subpaths, req.resource.val)) ==
            Some(Success(path, req.user.val))
  {
    var tried := TriedPaths(cfg.subpaths, req.resource.val);
    PathsAreNames(cfg, w, req);
    assert req.user.val in Candidates(req) by { CandidateIndexes(req, req.user.val); }
    forall p | p in tried ensures GrantsAt(cfg, s.rows, req, req.user.val, p) <==> p == path {
      RowOf(cfg, w, s, req.user.val, req.resource.rune, LookupContext(p));
    }
    StopsAt(cfg, s.rows, req, path, tried);
  }

  /** After a success at `path` the store remembers that path. */
  lemma AskOne(cfg: Config, w: World, s: Engine, req: Request, path: Bytes) returns (s': Engine)
    requires Regular(cfg, w) && Reachable(cfg, w, s) && CleanRequest(cfg, w, req) && 1 < cfg.cacheSeconds < LIMIT
    requires OnlyAt(cfg, s.acl, req, path) && RequestKey(req) !in s.rows && Stable(cfg.fix, RequestKey(req))
    ensures Reachable(cfg, w, s') && s'.acl == s.acl
    ensures Get(s'.rows, RequestKey(req)) == Some(CacheValue(req.user.val, req.resource.rune, path))
  {
    var env := Env(0, [], true, true);
    s' := s.(rows := Authorized(cfg, s.rows, req, env));
    assert Ascii(env.suffix);
    OnlySuccess(cfg, w, s, req, path);
    ReachNext(cfg, w, s, Ask(req, env), s');
    NotedRow(cfg, s.rows, req, req.user.val, path, env);
  }

  lemma Believed(cfg: Config, rows: Rows, req: Request, rune: Bytes, path: Bytes)
    requires req.action == NOTHING && Plain(req.user.val) && Plain(rune) && Plain(path)
    requires Get(rows, PermKey(req.user.val, rune, path, NOTHING)) == Some([1])
    ensures ValueGrants(cfg, rows, req, CacheValue(req.user.val, rune, path))
  {
    var v := CacheValue(req.user.val, rune, path);
    CacheValueSplits(req.user.val, rune, path);
    HitReadsPermission(req.user.val, rune, path, NOTHING);
    CandidateIndexes(req, req.user.val);
  }

  /** The remembered path is believed while its row is there. */
  lemma Remembered(cfg: Config, w: World, s: Engine, req: Request, rune: Bytes, path: Bytes)
    requires Regular(cfg, w) && Reachable(cfg, w, s) && cfg.cacheSeconds > 0 && req.action == NOTHING
    requires Fine(cfg, req.user.val) && Fine(cfg, rune) && Fine(cfg, path)
    requires Get(s.rows, RequestKey(req)) == Some(CacheValue(req.user.val, rune, path))
    requires Value(s.acl, Grant(req.user.val, rune, path, NOTHING)) == Some([1])
    ensures CacheGrants(cfg, s.rows, req)
  {
    RowOf(cfg, w, s, req.user.val, rune, path);
    Believed(cfg, s.rows, req, rune, path);
  }

  lemma Refused(cfg: Config, w: World, s: Engine, req: Request)
    requires Regular(cfg, w) && Reachable(cfg, w, s)
    requires CleanRequest(cfg, w, req) && req.entities == [] && req.action == NOTHING
    requires forall path :: path in TriedPaths(cfg.subpaths, req.resource.val) ==>
               Grant(req.user.val, req.resource.rune, LookupContext(path), NOTHING) !in s.acl
    ensures !WalkGrants(cfg, s.rows, req) && !Admitted(cfg, s.acl, req)
  {
    ReachableInv(cfg, w, s);
    WalkReadsList(cfg, w, s.rows, s.acl, req);
    AclGrantsMeans(cfg, s.acl, req);
  }

  function Asking(user: Bytes, resource: Bytes, rune: Bytes): (req: Request) {
    Request(Typed(user, []), [], Typed(resource, rune), NOTHING, Some([1]))
  }

  lemma AskingIsClean(cfg: Config, w: World, user: Bytes, resource: Bytes, rune: Bytes)
    requires IsCoercion(cfg.fix) && Fine(cfg, user) && Fine(cfg, rune)
    requires Stable(cfg.fix, resource) && (w.colons || Plain(resource)) && (w.oneRune ==> rune == w.runes(resource))
    ensures CleanRequest(cfg, w, Asking(user, resource, rune))
    ensures HasPrefix(RequestKey(Asking(user, resource, rune)), C_COLON)
    ensures Stable(cfg.fix, RequestKey(Asking(user, resource, rune)))
  {
    assert Ascii([]) && Ascii([1]);
    CacheKeyCoerced(cfg.fix, user, resource, NOTHING, Some([1]));
    KeyFamilies([], [], resource, user, NOTHING, Some([1]), 0, []);
  }

  /** A grant on the root is remembered under the empty path. */
  lemma RootRemembered(cfg: Config, w: World, user: Bytes, rune: Bytes) returns (s: Engine)
    requires Regular(cfg, w) && w.emptyContexts && 1 < cfg.cacheSeconds < LIMIT
    requires rune == w.runes([]) && Fine(cfg, user) && Fine(cfg, rune)
    ensures Reachable(cfg, w, s)
    ensures Get(s.rows, RequestKey(Asking(user, [], rune))) == Some(CacheValue(user, rune, []))
    ensures s.acl == map[Grant(user, rune, [], NOTHING) := [1], Grant(user, rune, ROOT, NOTHING) := [1]]
  {
    var req := Asking(user, [], rune);
    AskingIsClean(cfg, w, user, [], rune);
    SplitPlain([], SLASH);
    assert Ascii([]) && Ascii(ROOT);
    var s0 := Engine(map[], map[]);
    assert IsRun(cfg, w, [s0]);
    var s1 := PermitOne(cfg, w, s0, user, rune, [], false, RequestKey(req));
    var s2 := PermitOne(cfg, w, s1, user, rune, ROOT, false, RequestKey(req));
    s := AskOne(cfg, w, s2, req, []);
  }

  lemma RootOutlives(cfg: Config, w: World, user: Bytes, rune: Bytes)
    requires Regular(cfg, w) && w.emptyContexts && 1 < cfg.cacheSeconds < LIMIT
    requires rune == w.runes([]) && Fine(cfg, user) && Fine(cfg, rune) && Fine(cfg, []) && Fine(cfg, ROOT)
    ensures !Transparent(cfg, w) && !MeansList(cfg, w)
  {
    var req := Asking(user, [], rune);
    AskingIsClean(cfg, w, user, [], rune);
    SplitPlain([], SLASH);
    var s := RootRemembered(cfg, w, user, rune);
    var s' := PermitOne(cfg, w, s, user, rune, ROOT, true, RequestKey(req));
    Remembered(cfg, w, s', req, rune, []);
    Refused(cfg, w, s', req);
  }

  /** With empty contexts: a grant on the root, remembered as a grant on the
      empty context, outlives its removal. */
  lemma EmptyContextBreaks(cfg: Config, w: World)
    requires Regular(cfg, w) && w.emptyContexts && 1 < cfg.cacheSeconds < LIMIT && Fine(cfg, w.runes([]))
    ensures !Transparent(cfg, w) && !MeansList(cfg, w)
  {
    assert Ascii([117]) && Ascii([]) && Ascii(ROOT);
    RootOutlives(cfg, w, [117], w.runes([]));
  }

  /** What is remembered for one rune answers the request for another. */
  lemma RunesMixed(cfg: Config, w: World, user: Bytes, a: Bytes, x: Bytes, y: Bytes)
    requires Regular(cfg, w) && !w.oneRune && 1 < cfg.cacheSeconds < LIMIT && a in TriedPaths(cfg.subpaths, a)
    requires Fine(cfg, user) && Fine(cfg, a) && Fine(cfg, x) && Fine(cfg, y) && x != y && a != []
    requires forall p :: p in TriedPaths(cfg.subpaths, a) && p != a ==> LookupContext(p) != a
    ensures !Transparent(cfg, w) && !MeansList(cfg, w)
  {
    var asked, other := Asking(user, a, x), Asking(user, a, y);
    AskingIsClean(cfg, w, user, a, x);
    AskingIsClean(cfg, w, user, a, y);
    var s0 := Engine(map[], map[]);
    assert IsRun(cfg, w, [s0]);
    var s1 := PermitOne(cfg, w, s0, user, x, a, false, RequestKey(asked));
    var s2 := AskOne(cfg, w, s1, asked, a);
    Remembered(cfg, w, s2, other, x, a);
    Refused(cfg, w, s2, other);
  }

  lemma TwoRunesBreak(cfg: Config, w: World)
    requires Regular(cfg, w) && !w.oneRune && 1 < cfg.cacheSeconds < LIMIT
    ensures !Transparent(cfg, w) && !MeansList(cfg, w)
  {
    SlashPath(cfg.subpaths, [SLASH, 97]);
    assert forall x: byte :: x < 128 ==> Ascii([x]);
    assert Ascii([117]) && Ascii([SLASH, 97]) && Ascii([120]) && Ascii([121]);
    RunesMixed(cfg, w, [117], [SLASH, 97], [120], [121]);
  }

  lemma SlashPath(subpaths: bool, a: Bytes)
    requires a == [SLASH, 97]
    ensures a in TriedPaths(subpaths, a) && forall p :: p in TriedPaths(subpaths, a) && p != a ==> LookupContext(p) != a
  {
    assert a == Field([], SLASH, [97]);
    SplitField([], [97], SLASH);
    SplitPlain([97], SLASH);
  }

  lemma HitIsWalk(cfg: Config, w: World, s: Engine, req: Request)
    requires Regular(cfg, w) && Sound(cfg, w) && Reachable(cfg, w, s)
    requires CleanRequest(cfg, w, req) && CacheGrants(cfg, s.rows, req)
    ensures WalkGrants(cfg, s.rows, req)
  {
    var run :| IsRun(cfg, w, run) && run[|run| - 1] == s;
    AuthorizeMeansList(cfg, w, run, |run| - 1, req);
  }

  /** Without colons in names, the cache makes no difference exactly under
      that promise. */
  lemma TransparentIffSound(cfg: Config, w: World)
    requires Regular(cfg, w) && cfg.cacheSeconds < LIMIT && Fine(cfg, w.runes([]))
    ensures Transparent(cfg, w) <==> Sound(cfg, w)
  {
    if Sound(cfg, w) {
      forall s, req | Reachable(cfg, w, s) && CleanRequest(cfg, w, req) && CacheGrants(cfg, s.rows, req)
        ensures WalkGrants(cfg, s.rows, req)
      {
        HitIsWalk(cfg, w, s, req);
      }
    } else if w.emptyContexts {
      EmptyContextBreaks(cfg, w);
    } else {
      TwoRunesBreak(cfg, w);
    }
  }

  // ---------------------------------------------------------------- colons

  /** With colons in names two grants share one key: one to the entity "e:r",
      and one to "e" on a longer context. */
  lemma ColonsCollide(e: Bytes, r: Bytes, r': Bytes, c: Bytes)
    ensures PermKey(Joined(e, r), r', c, NOTHING) == PermKey(e, r, Joined(r', c), NOTHING)
    ensures Joined(e, r) != e
  {
    FieldAssociative(e, r, Joined(r', c), COLON);
  }

  /** A lone grant written to an empty store. */
  lemma OnlyGrant(cfg: Config, entity: Bytes, rune: Bytes, context: Bytes)
    requires IsCoercion(cfg.fix) && Stable(cfg.fix, PermKey(entity, rune, context, NOTHING))
    ensures var p := OneGrant(entity, rune, context, false);
            && Written(cfg.fix, map[], [p]) == map[PermKey(entity, rune, context, NOTHING) := [1]]
            && DecideAll(map[], [p]) == map[Grant(entity, rune, context, NOTHING) := [1]]
  {
    var p := OneGrant(entity, rune, context, false);
    assert [p][..0] == [];
    WrittenStep(cfg.fix, map[], [p]);
    assert Written(cfg.fix, map[], []) == map[];
    assert DecideAll(map[], [p]) == Decide(DecideAll(map[], [p][..0]), p);
  }

  /** Grant "e:r" something on "c" under the rune "/": then "e", with rune r, is
      let in on the resource "/:c", which the list does not know. */
  lemma ColonsGrant(cfg: Config, w: World, e: Bytes, r: Bytes, c: Bytes, res: Bytes)
    requires IsCoercion(cfg.fix) && w.colons && res == Joined(ROOT, c) && r == w.runes(res) && c != []
    requires Fine(cfg, e) && Fine(cfg, r) && Fine(cfg, c) && res in TriedPaths(cfg.subpaths, res)
    ensures !MeansList(cfg, w)
  {
    assert Ascii([]) && Ascii(ROOT) && Stable(cfg.fix, res) && Stable(cfg.fix, Joined(e, r));
    var p, req := OneGrant(Joined(e, r), ROOT, c, false), Asking(e, res, r);
    PermKeyStable(cfg.fix, Joined(e, r), ROOT, c, NOTHING);
    OnlyGrant(cfg, Joined(e, r), ROOT, c);
    ColonsCollide(e, r, ROOT, c);
    AskingIsClean(cfg, w, e, res, r);
    var s := FirstPermit(cfg, w, p);
    LetIn(cfg, s.rows, req, res);
    NotListed(cfg, s.acl, req, Grant(Joined(e, r), ROOT, c, NOTHING));
  }

  lemma FirstPermit(cfg: Config, w: World, p: Permission) returns (s: Engine)
    requires CleanPermission(cfg, w, p)
    ensures Reachable(cfg, w, s) && s == Engine(Written(cfg.fix, map[], [p]), DecideAll(map[], [p]))
  {
    var s0 := Engine(map[], map[]);
    assert IsRun(cfg, w, [s0]) && [s0][|[s0]| - 1] == s0;
    s := Engine(Written(cfg.fix, map[], [p]), DecideAll(map[], [p]));
    ReachNext(cfg, w, s0, Permit([p]), s);
  }

  lemma LetIn(cfg: Config, rows: Rows, req: Request, path: Bytes)
    requires path in TriedPaths(cfg.subpaths, req.resource.val) && path != [] && req.action == NOTHING
    requires Get(rows, PermKey(req.user.val, req.resource.rune, path, NOTHING)) == Some([1])
    ensures WalkGrants(cfg, rows, req)
  {
    CandidateIndexes(req, req.user.val);
    assert GrantsAt(cfg, rows, req, req.user.val, path);
    assert PathGrants(cfg, rows, req, path);
  }

  /** A list with one grant, to somebody else. */
  lemma NotListed(cfg: Config, acl: List, req: Request, g: Grant)
    requires acl == map[g := [1]] && req.entities == [] && g.entity != req.user.val
    ensures !Admitted(cfg, acl, req)
  {
    assert Candidates(req) == [req.user.val];
    AclGrantsMeans(cfg, acl, req);
  }

  lemma ColonPath(subpaths: bool, res: Bytes)
    requires res == [SLASH, COLON, 99]
    ensures res in TriedPaths(subpaths, res)
  {
    assert res == Field([], SLASH, [COLON, 99]);
    SplitField([], [COLON, 99], SLASH);
    SplitPlain([COLON, 99], SLASH);
  }

  lemma ColonsBreak(cfg: Config, w: World)
    requires IsCoercion(cfg.fix) && w.colons && forall b :: Fine(cfg, w.runes(b))
    ensures !MeansList(cfg, w)
  {
    var res: Bytes := [SLASH, COLON, 99];
    ColonPath(cfg.subpaths, res);
    assert Ascii([101]) && Ascii([99]);
    assert res == Joined(ROOT, [99]);
    ColonsGrant(cfg, w, [101], w.runes(res), [99], res);
  }

  /** Main theorem, both ways: authorize answers as the list in every reachable
      store exactly if no name holds a colon and, where there is a cache, each
      resource has one rune and no context is empty. */
  lemma MeansListIff(cfg: Config, w: World)
    requires IsCoercion(cfg.fix) && cfg.cacheSeconds < LIMIT && forall b :: Fine(cfg, w.runes(b))
    ensures MeansList(cfg, w) <==> Sound(cfg, w) && !w.colons
  {
    if w.colons {
      ColonsBreak(cfg, w);
    } else if Sound(cfg, w) {
      forall s, req | Reachable(cfg, w, s) && CleanRequest(cfg, w, req)
        ensures CacheGrants(cfg, s.rows, req) || WalkGrants(cfg, s.rows, req) <==> Admitted(cfg, s.acl, req)
      {
        var run :| IsRun(cfg, w, run) && run[|run| - 1] == s;
        AuthorizeAdmits(cfg, w, run, |run| - 1, req);
      }
    } else if w.emptyContexts {
      EmptyContextBreaks(cfg, w);
    } else {
      TwoRunesBreak(cfg, w);
    }
  }

  // --------------------------------------------------------- rights as bytes

  /** What a success notes is found by the same request again if and only if
      the key of the request is UTF-8, which only its right can prevent. */
  lemma NotedFoundIff(cfg: Config, w: World, run: seq<Engine>, i: nat, req: Request, entity: Bytes, path: Bytes,
      env: Env)
    requires Regular(cfg, w) && IsRun(cfg, w, run) && i < |run| && cfg.cacheSeconds > 1 && env.cacheSaved
    ensures RequestKey(req) in Noted(cfg, run[i].rows, req, entity, path, env) <==> Stable(cfg.fix, RequestKey(req))
  {
    RunInv(cfg, w, run, i);
    CacheRowsStable(cfg, w, run[i].rows);
    KeyFamilies([], [], req.resource.val, req.user.val, req.action, req.right, 0, []);
    if env.ttlSaved { TtlKeyElsewhere(cfg.fix, env.now + cfg.cacheSeconds, env.suffix, RequestKey(req)); }
  }

  lemma TtlKeyElsewhere(fix: Coercion, t: nat, suffix: Bytes, k: Bytes)
    requires IsCoercion(fix) && HasPrefix(k, C_COLON)
    ensures fix(TtlKey(t, suffix)) != k
  {
    var r, tt: Bytes := TtlKey(t, suffix), [116, 116];
    assert r[..2] == tt;
    PrefixStays(fix, r, tt);
    assert k[..2][0] == 99 && tt[0] == 116;
  }

  /** A cache key with a right that is no UTF-8 text is stored under another
      key than the one a request looks up: such a decision is never found. */
  lemma BinaryRightNeverHits(cfg: Config, w: World, run: seq<Engine>, i: nat, req: Request)
    requires Regular(cfg, w) && IsRun(cfg, w, run) && i < |run|
    requires !Stable(cfg.fix, RequestKey(req))
    ensures !CacheGrants(cfg, run[i].rows, req)
  {
    RunInv(cfg, w, run, i);
    KeyFamilies([], [], req.resource.val, req.user.val, req.action, req.right, 0, []);
    CacheRowsStable(cfg, w, run[i].rows);
  }

  lemma CacheRowsStable(cfg: Config, w: World, rows: Rows)
    requires IsCoercion(cfg.fix) && CacheInv(cfg, w, rows)
    ensures forall k :: k in rows && HasPrefix(k, C_COLON) ==> Stable(cfg.fix, k)
  {
    forall k | k in rows && HasPrefix(k, C_COLON) ensures Stable(cfg.fix, k) {
      var o :| From(cfg, w, k, rows[k], o);
    }
  }
}
