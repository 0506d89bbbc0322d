/**
 The colon-joined keys of the permission store, and why they can be told
 apart again. A rune is given as the text that %c prints for it.
 */
module PermKeys {
  import opened ByteStrings
  import opened Expiry

  datatype Typed = Typed(val: Bytes, rune: Bytes)

  const P: Bytes := [112]        // p
  const E: Bytes := [101]        // e
  const C: Bytes := [99]         // c
  const P_COLON: Bytes := [112, 58]
  const C_COLON: Bytes := [99, 58]
  const ROOT: Bytes := [47]      // "/"

  function Joined(a: Bytes, rest: Bytes): (b: Bytes) {
    Field(a, COLON, rest)
  }

  predicate Plain(b: Bytes) {
    COLON !in b
  }

  /** Context, then the action if there is one. */
  function Tail(context: Bytes, action: Typed): (b: Bytes) {
    if action.val == [] then context else Joined(context, Joined(action.rune, action.val))
  }

  /** p:e:{entity}:{rune}:{context}[:{rune}:{action}] */
  function PermKey(entity: Bytes, rune: Bytes, context: Bytes, action: Typed): (b: Bytes) {
    Joined(P, Joined(E, Joined(entity, Joined(rune, Tail(context, action)))))
  }

  /** The root is looked up under the name "/". */
  function LookupContext(context: Bytes): (b: Bytes) {
    if context == [] then ROOT else context
  }

  /** c:{user}:{resource}:{rune}:{action} or c:{user}:{resource}:{right} */
  function CacheKey(user: Bytes, resource: Bytes, action: Typed, right: Option<Bytes>): (b: Bytes) {
    Joined(C, Joined(user, Joined(resource, CacheTail(action, right))))
  }

  function CacheTail(action: Typed, right: Option<Bytes>): (b: Bytes) {
    if action.val != [] then Joined(action.rune, action.val) else if right.Some? then right.value else []
  }

  /** e:{entity}:{rune}:{context} */
  function CacheValue(entity: Bytes, rune: Bytes, context: Bytes): (b: Bytes) {
    Joined(E, Joined(entity, Joined(rune, context)))
  }

  /** The row a cache hit is checked against. */
  function HitKey(cached: Bytes, action: Typed): (b: Bytes) {
    if action.val == [] then Joined(P, cached)
    else Joined(P, Joined(cached, Joined(action.rune, action.val)))
  }

  /** The keys as texts. */
  lemma PermKeySpelled(e: Bytes, r: Bytes, c: Bytes, a: Typed)
    ensures PermKey(e, r, c, a) ==
            Spell("p:e:") + e + Spell(":") + r + Spell(":") + c
            + if a.val == [] then [] else Spell(":") + a.rune + Spell(":") + a.val
  {
    Joins();
    FieldIs(r, Tail(c, a));
    FieldIs(e, Joined(r, Tail(c, a)));
    if a.val != [] {
      FieldIs(a.rune, a.val);
      FieldIs(c, Joined(a.rune, a.val));
    }
  }

  lemma CacheKeySpelled(u: Bytes, s: Bytes, a: Typed, g: Option<Bytes>)
    ensures CacheKey(u, s, a, g) ==
            Spell("c:") + u + Spell(":") + s + Spell(":")
            + if a.val != [] then a.rune + Spell(":") + a.val else if g.Some? then g.value else []
  {
    Joins();
    FieldIs(s, CacheTail(a, g));
    FieldIs(u, Joined(s, CacheTail(a, g)));
    if a.val != [] { FieldIs(a.rune, a.val); }
  }

  lemma CacheValueSpelled(e: Bytes, r: Bytes, c: Bytes)
    ensures CacheValue(e, r, c) == Spell("e:") + e + Spell(":") + r + Spell(":") + c
  {
    Joins();
    FieldIs(r, c);
    FieldIs(e, Joined(r, c));
  }

  lemma TtlKeySpelled(t: nat, suffix: Bytes)
    requires t < LIMIT
    ensures TtlKey(t, suffix) == Spell("ttl:") + Digits(t, 15) + Spell(":") + suffix
    ensures forall k :: 0 <= k < 15 ==> Digits(t, 15)[k] == 48 + (t / Pow10(14 - k)) % 10
  {
    PaddedIs15(t);
    Joins();
    forall k | 0 <= k < 15 ensures Digits(t, 15)[k] == 48 + (t / Pow10(14 - k)) % 10 { DigitAt(t, 15, k); }
  }

  lemma FieldIs(a: Bytes, b: Bytes)
    ensures Joined(a, b) == a + Spell(":") + b
  {
    Joins();
  }

  lemma Joins()
    ensures Spell(":") == [COLON] && Spell("p:e:") == [112, 58, 101, 58] && Spell("e:") == [101, 58]
    ensures Spell("c:") == [99, 58] && Spell("ttl:") == [116, 116, 108, 58]
  {
  }

  /** A hit on the value cached for (entity, rune, context) reads exactly the
      permission row of that triple. */
  lemma HitReadsPermission(entity: Bytes, rune: Bytes, context: Bytes, action: Typed)
    ensures HitKey(CacheValue(entity, rune, context), action) == PermKey(entity, rune, context, action)
  {
    if action.val != [] {
      var tail := Joined(action.rune, action.val);
      FieldAssociative(rune, context, tail, COLON);
      FieldAssociative(entity, Joined(rune, context), tail, COLON);
      FieldAssociative(E, Joined(entity, Joined(rune, context)), tail, COLON);
    }
  }

  lemma CacheValueSplits(entity: Bytes, rune: Bytes, context: Bytes)
    requires Plain(entity) && Plain(rune) && Plain(context)
    ensures Split(CacheValue(entity, rune, context), COLON) == [E, entity, rune, context]
  {
    SplitPlain(context, COLON);
    SplitField(rune, context, COLON);
    var two := Joined(rune, context);
    SplitField(entity, two, COLON);
    var three := Joined(entity, two);
    SplitField(E, three, COLON);
    Regroup([E], [entity], Split(two, COLON));
  }

  // ---------------------------------------------------------- unique reading

  lemma TailUnique(c: Bytes, a: Typed, c': Bytes, a': Typed)
    requires Plain(c) && Plain(c') && Plain(a.rune) && Plain(a'.rune)
    requires Tail(c, a) == Tail(c', a')
    ensures c == c' && (a == a' || a.val == a'.val == [])
  {
    if a.val == [] && a'.val != [] { NoField(c, c', Joined(a'.rune, a'.val), COLON); }
    if a.val != [] && a'.val == [] { NoField(c', c, Joined(a.rune, a.val), COLON); }
    if a.val != [] && a'.val != [] {
      UniqueHead(c, Joined(a.rune, a.val), c', Joined(a'.rune, a'.val), COLON);
      UniqueHead(a.rune, a.val, a'.rune, a'.val, COLON);
    }
  }

  /** A permission key determines all its fields, five or seven of them. */
  lemma PermKeyUnique(e: Bytes, r: Bytes, c: Bytes, a: Typed, e': Bytes, r': Bytes, c': Bytes, a': Typed)
    requires Plain(e) && Plain(r) && Plain(c) && Plain(a.rune)
    requires Plain(e') && Plain(r') && Plain(c') && Plain(a'.rune)
    requires PermKey(e, r, c, a) == PermKey(e', r', c', a')
    ensures e == e' && r == r' && c == c' && (a == a' || a.val == a'.val == [])
  {
    var t, t' := Tail(c, a), Tail(c', a');
    var x, x' := Joined(e, Joined(r, t)), Joined(e', Joined(r', t'));
    UniqueHead(P, Joined(E, x), P, Joined(E, x'), COLON);
    UniqueHead(E, x, E, x', COLON);
    UniqueHead(e, Joined(r, t), e', Joined(r', t'), COLON);
    UniqueHead(r, t, r', t', COLON);
    TailUnique(c, a, c', a');
  }

  /** A cache key determines user and resource, whatever the right's bytes. */
  lemma CacheKeyUnique(u: Bytes, s: Bytes, a: Typed, g: Option<Bytes>, u': Bytes, s': Bytes, a': Typed,
      g': Option<Bytes>)
    requires Plain(u) && Plain(s) && Plain(u') && Plain(s')
    requires CacheKey(u, s, a, g) == CacheKey(u', s', a', g')
    ensures u == u' && s == s'
  {
    UserResourceUnique(u, s, CacheTail(a, g), u', s', CacheTail(a', g'));
  }

  lemma UserResourceUnique(u: Bytes, s: Bytes, t: Bytes, u': Bytes, s': Bytes, t': Bytes)
    requires Plain(u) && Plain(s) && Plain(u') && Plain(s')
    requires Joined(C, Joined(u, Joined(s, t))) == Joined(C, Joined(u', Joined(s', t')))
    ensures u == u' && s == s' && t == t'
  {
    UniqueHead(C, Joined(u, Joined(s, t)), C, Joined(u', Joined(s', t')), COLON);
    UniqueHead(u, Joined(s, t), u', Joined(s', t'), COLON);
    UniqueHead(s, t, s', t', COLON);
  }

  // ---------------------------------------------------------- coerced keys

  /** Keys of UTF-8 names are stored as they are. */
  lemma PermKeyStable(fix: Coercion, e: Bytes, r: Bytes, c: Bytes, a: Typed)
    requires IsCoercion(fix) && Stable(fix, e) && Stable(fix, r) && Stable(fix, c)
    requires Stable(fix, a.rune) && Stable(fix, a.val)
    ensures Stable(fix, PermKey(e, r, c, a))
  {
    assert Ascii(P) && Ascii(E);
    assert Stable(fix, Tail(c, a));
    assert Stable(fix, Joined(e, Joined(r, Tail(c, a))));
  }

  /** The right of a request is a byte string; only that part of a cache key
      may change on its way into the store. */
  lemma CacheKeyCoerced(fix: Coercion, u: Bytes, s: Bytes, a: Typed, g: Option<Bytes>)
    requires IsCoercion(fix) && Stable(fix, u) && Stable(fix, s)
    ensures fix(CacheKey(u, s, a, g)) == Joined(C, Joined(u, Joined(s, fix(CacheTail(a, g)))))
  {
    assert Ascii(C);
    var t := CacheTail(a, g);
    assert fix(Joined(s, t)) == Joined(s, fix(t));
    assert fix(Joined(u, Joined(s, t))) == Joined(u, Joined(s, fix(t)));
  }

  /** The three families of keys do not meet. */
  lemma Families(k: Bytes)
    ensures HasPrefix(k, P_COLON) ==> !HasPrefix(k, C_COLON) && !HasPrefix(k, TTL)
    ensures HasPrefix(k, C_COLON) ==> !HasPrefix(k, TTL)
  {
    if |k| >= 2 {
      assert k[..2][0] == k[0];
      if |k| >= 4 { assert k[..4][0] == k[0]; }
    }
  }

  lemma KeyFamilies(entity: Bytes, rune: Bytes, context: Bytes, user: Bytes, action: Typed,
      right: Option<Bytes>, t: nat, suffix: Bytes)
    ensures HasPrefix(PermKey(entity, rune, context, action), P_COLON)
    ensures HasPrefix(CacheKey(user, context, action, right), C_COLON)
    ensures HasPrefix(TtlKey(t, suffix), TTL)
  {
    assert PermKey(entity, rune, context, action)[..2] == P_COLON;
    assert CacheKey(user, context, action, right)[..2] == C_COLON;
  }
}
