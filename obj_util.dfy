/**
 * JavaScript values and the recursive key transformer of src/util/obj.util.ts
 * (`objUtil.isEmpty`, `objUtil.isObject`, `objUtil.transformKeys`).
 *
 * A plain object is a value: an association list of its own enumerable
 * properties in key order. transformKeys never changes an object, it builds
 * a fresh one, so nothing is lost by treating objects as values. Arrays are
 * different: transformKeys overwrites their elements in place, and the same
 * array can be reachable from several places. An array is therefore a
 * reference (Ref) into a store of array contents, and the store is the
 * state that transformKeys changes.
 */
module ObjUtil {
  import opened Wrappers

  type Key = string

  /** The identity of a JavaScript array object. */
  type Ref = nat

  datatype Value =
    | Undefined
    | Null
    | Bool(b: bool)
    | Num(n: int)
    | Str(s: string)
    | Arr(ref: Ref)                // an array, by reference
    | Obj(props: seq<Prop>)        // a plain object, prototype Object.prototype
    | Other(ownKeys: seq<Key>)     // any other object: a Date, a Buffer, a class instance, ...

  datatype Prop = Prop(key: Key, val: Value)

  /** The contents of every array, by reference. */
  type Store = map<Ref, seq<Value>>

  /** `!v` holds. */
  predicate Falsy(v: Value)
  {
    v.Undefined? || v.Null? || v == Bool(false) || v == Num(0) || v == Str("")
  }

  /** `Object.keys(v).length` for a value that is not falsy. */
  function OwnKeyCount(v: Value, h: Store): nat
    requires v.Arr? ==> v.ref in h
  {
    match v
    case Str(s) => |s|
    case Arr(a) => |h[a]|
    case Obj(ps) => |ps|
    case Other(ks) => |ks|
    case _ => 0
  }

  /**
   * `objUtil.isEmpty(v)`: true for a falsy argument, otherwise true when the
   * argument has no own enumerable keys. Every primitive other than a
   * non-empty string is empty.
   */
  function IsEmpty(v: Value, h: Store): (r: bool)
    requires v.Arr? ==> v.ref in h
    ensures r <==> match v
      case Str(s) => s == ""
      case Arr(a) => h[a] == []
      case Obj(ps) => ps == []
      case Other(ks) => ks == []
      case _ => true
  {
    if Falsy(v) then true else OwnKeyCount(v, h) == 0
  }

  /** `Object.getPrototypeOf(v) == Object.prototype`: only plain objects have that prototype. */
  predicate HasObjectPrototype(v: Value) { v.Obj? }

  /** `typeof v == 'object'`. */
  predicate TypeofObject(v: Value) { v.Null? || v.Arr? || v.Obj? || v.Other? }

  /** `objUtil.isObject(v)`: v is a plain object, and nothing else. */
  function IsObject(v: Value): (r: bool)
    ensures r <==> v.Obj?
  {
    if Falsy(v) then false
    else HasObjectPrototype(v) && !v.Arr? && TypeofObject(v)
  }

  /** `Object.keys` of a plain object. */
  function Keys(ps: seq<Prop>): (ks: seq<Key>)
    ensures |ks| == |ps| && forall i :: 0 <= i < |ps| ==> ks[i] == ps[i].key
  {
    seq(|ps|, i requires 0 <= i < |ps| => ps[i].key)
  }

  function KeySet(ps: seq<Prop>): set<Key>
  {
    set p | p in ps :: p.key
  }

  predicate DistinctKeys(ps: seq<Prop>)
  {
    forall i, j :: 0 <= i < j < |ps| ==> ps[i].key != ps[j].key
  }

  /** Every plain object reachable through plain objects has distinct keys, as a JavaScript object does. */
  predicate WellFormed(v: Value)
    decreases v
  {
    match v
    case Obj(ps) => DistinctKeys(ps) && forall p | p in ps :: WellFormed(p.val)
    case _ => true
  }

  /** `o[k]` on a plain object: the value of the first property named k. */
  function Lookup(ps: seq<Prop>, k: Key): (r: Option<Value>)
    ensures r.Some? <==> k in KeySet(ps)
  {
    if ps == [] then None
    else if ps[0].key == k then Some(ps[0].val)
    else Lookup(ps[1..], k)
  }

  /** Reading, with `o[k]`, the i-th key `Object.keys(o)` lists finds the i-th property's value. */
  lemma {:induction false} LookupKey(ps: seq<Prop>, i: nat)
    requires DistinctKeys(ps) && i < |ps|
    ensures Lookup(ps, Keys(ps)[i]) == Some(ps[i].val)
  {
    if i > 0 {
      DistinctHead(ps);
      assert ps[1..][i - 1] == ps[i];
      LookupKey(ps[1..], i - 1);
    }
  }

  /**
   * `o[k] = w` on a plain object: a property already named k keeps its place
   * and takes the new value; otherwise the property is added at the end.
   */
  function Put(ps: seq<Prop>, k: Key, w: Value): (r: seq<Prop>)
    ensures KeySet(r) == KeySet(ps) + {k}
    ensures k !in KeySet(ps) ==> r == ps + [Prop(k, w)]
  {
    if ps == [] then [Prop(k, w)]
    else
      KeySetCons(ps[0], ps[1..]);
      assert [ps[0]] + ps[1..] == ps;
      if ps[0].key == k then
        KeySetCons(Prop(k, w), ps[1..]);
        [Prop(k, w)] + ps[1..]
      else
        var rest := Put(ps[1..], k, w);
        KeySetCons(ps[0], rest);
        [ps[0]] + rest
  }

  lemma KeySetCons(p: Prop, ps: seq<Prop>)
    ensures KeySet([p] + ps) == {p.key} + KeySet(ps)
  {
    assert forall q :: q in [p] + ps <==> q == p || q in ps;
  }

  /** Writing a key that is already present replaces that property in its place. */
  lemma {:induction false} PutInPlace(ps: seq<Prop>, k: Key, w: Value)
    requires DistinctKeys(ps) && k in KeySet(ps)
    ensures |Put(ps, k, w)| == |ps|
    ensures forall i :: 0 <= i < |ps| ==>
      Put(ps, k, w)[i] == (if ps[i].key == k then Prop(k, w) else ps[i])
  {
    assert ps != [];
    if ps[0].key == k {
      assert Put(ps, k, w) == [Prop(k, w)] + ps[1..];
    } else {
      DistinctHead(ps);
      KeySetCons(ps[0], ps[1..]);
      assert [ps[0]] + ps[1..] == ps;
      PutInPlace(ps[1..], k, w);
      assert Put(ps, k, w) == [ps[0]] + Put(ps[1..], k, w);
    }
  }

  /** The head of an object with distinct keys has a key none of the rest has. */
  lemma DistinctHead(ps: seq<Prop>)
    requires ps != [] && DistinctKeys(ps)
    ensures ps[0].key !in KeySet(ps[1..]) && DistinctKeys(ps[1..])
  {
    forall p | p in ps[1..] ensures p.key != ps[0].key {
      var j :| 0 <= j < |ps[1..]| && ps[1..][j] == p;
      assert ps[j + 1] == p;
    }
  }

  /** A property whose key the rest lacks keeps the keys distinct. */
  lemma DistinctCons(p: Prop, rest: seq<Prop>)
    requires DistinctKeys(rest) && p.key !in KeySet(rest)
    ensures DistinctKeys([p] + rest)
  {
    var r := [p] + rest;
    forall i, j | 0 <= i < j < |r| ensures r[i].key != r[j].key {
      assert r[j] == rest[j - 1];
      if i > 0 {
        assert r[i] == rest[i - 1];
      } else {
        assert r[j] in rest;
      }
    }
  }

  /** `o[k] = w` keeps the keys distinct. */
  lemma {:induction false} PutDistinct(ps: seq<Prop>, k: Key, w: Value)
    ensures DistinctKeys(ps) ==> DistinctKeys(Put(ps, k, w))
  {
    if ps != [] && DistinctKeys(ps) {
      DistinctHead(ps);
      if ps[0].key == k {
        assert Put(ps, k, w) == [Prop(k, w)] + ps[1..];
        DistinctCons(Prop(k, w), ps[1..]);
      } else {
        var rest := Put(ps[1..], k, w);
        PutDistinct(ps[1..], k, w);
        assert Put(ps, k, w) == [ps[0]] + rest;
        DistinctCons(ps[0], rest);
      }
    }
  }

  /** `o[k] = w` adds no property other than k's. */
  lemma {:induction false} PutMembers(ps: seq<Prop>, k: Key, w: Value)
    ensures forall p :: p in Put(ps, k, w) ==> p in ps || p == Prop(k, w)
  {
    if ps != [] {
      var r := Put(ps, k, w);
      if ps[0].key == k {
        assert r[1..] == ps[1..];
      } else {
        PutMembers(ps[1..], k, w);
        assert r == [ps[0]] + Put(ps[1..], k, w);
      }
    }
  }

  /** After `o[k] = w`, reading k gives w and reading any other key gives what it gave before. */
  lemma {:induction false} PutLookup(ps: seq<Prop>, k: Key, w: Value, k': Key)
    ensures Lookup(Put(ps, k, w), k') == if k' == k then Some(w) else Lookup(ps, k')
  {
    if ps != [] && ps[0].key != k {
      PutLookup(ps[1..], k, w, k');
    }
  }

  /** The arrays a value holds directly or through plain objects (not through other arrays). */
  function Refs(v: Value): set<Ref>
    decreases v
  {
    match v
    case Arr(a) => {a}
    case Obj(ps) => RefsProps(ps)
    case _ => {}
  }

  function RefsProps(ps: seq<Prop>): set<Ref>
    decreases ps
  {
    set p, a | p in ps && a in Refs(p.val) :: a
  }

  /**
   * The value `objUtil.transformKeys(v, fn)` returns: v itself unless v is a
   * plain object; for a plain object, a fresh object holding, for each key k
   * in key order, the value under fn(k), itself transformed when it is a
   * plain object. An array value is the same array (its elements are
   * rewritten in place, see Rewrite).
   */
  function Transformed(v: Value, fn: Key -> Key): (r: Value)
    ensures !v.Obj? ==> r == v
    ensures v.Obj? ==> r.Obj? && DistinctKeys(r.props)
    ensures WellFormed(r)
    ensures Refs(r) <= Refs(v)
    decreases v, 1
  {
    if !IsObject(v) then v
    else Obj(Rebuild(v.props, fn, []))
  }

  /** The loop of transformKeys over the keys ps, writing into out. */
  function Rebuild(ps: seq<Prop>, fn: Key -> Key, out: seq<Prop>): (r: seq<Prop>)
    ensures DistinctKeys(out) ==> DistinctKeys(r)
    ensures (forall p | p in out :: WellFormed(p.val)) ==> forall p | p in r :: WellFormed(p.val)
    ensures RefsProps(r) <= RefsProps(out) + RefsProps(ps)
    decreases ps, 0
  {
    if ps == [] then out
    else
      var value := ps[0].val;
      var w := if IsObject(value) then Transformed(value, fn) else value;
      var out' := Put(out, fn(ps[0].key), w);
      PutDistinct(out, fn(ps[0].key), w);
      PutMembers(out, fn(ps[0].key), w);
      var r := Rebuild(ps[1..], fn, out');
      assert RefsProps(out') <= RefsProps(out) + Refs(w);
      assert Refs(value) + RefsProps(ps[1..]) <= RefsProps(ps) by {
        assert ps[0] in ps;
        forall p | p in ps[1..] ensures p in ps { }
      }
      r
  }

  /** Each property of ps renamed by fn, with its value transformed: the result when no two keys collide. */
  function Renamed(ps: seq<Prop>, fn: Key -> Key): (r: seq<Prop>)
    ensures |r| == |ps|
  {
    seq(|ps|, i requires 0 <= i < |ps| => Prop(fn(ps[i].key), Transformed(ps[i].val, fn)))
  }

  /** fn sends no two properties of ps to the same key. */
  predicate NoCollision(ps: seq<Prop>, fn: Key -> Key)
  {
    forall i, j :: 0 <= i < j < |ps| ==> fn(ps[i].key) != fn(ps[j].key)
  }

  /** Writing the same key twice leaves the second value in the first write's place. */
  lemma {:induction false} PutTwice(ps: seq<Prop>, k: Key, x: Value, y: Value)
    ensures Put(Put(ps, k, x), k, y) == Put(ps, k, y)
  {
    if ps != [] && ps[0].key != k {
      PutTwice(ps[1..], k, x, y);
    }
  }

  /** One turn of the loop of transformKeys: the first key is written, then the rest follow. */
  lemma RebuildStep(ps: seq<Prop>, fn: Key -> Key, out: seq<Prop>)
    requires ps != []
    ensures Rebuild(ps, fn, out) == Rebuild(ps[1..], fn, Put(out, fn(ps[0].key), Transformed(ps[0].val, fn)))
  {
  }

  lemma {:induction false} RebuildKeySet(ps: seq<Prop>, fn: Key -> Key, out: seq<Prop>)
    ensures KeySet(Rebuild(ps, fn, out)) == KeySet(out) + (set p | p in ps :: fn(p.key))
    decreases ps
  {
    if ps != [] {
      var out' := Put(out, fn(ps[0].key), Transformed(ps[0].val, fn));
      RebuildKeySet(ps[1..], fn, out');
      assert (set p | p in ps :: fn(p.key)) == {fn(ps[0].key)} + (set p | p in ps[1..] :: fn(p.key)) by {
        assert forall p :: p in ps <==> p == ps[0] || p in ps[1..];
      }
    }
  }

  lemma {:induction false} RebuildUntouched(ps: seq<Prop>, fn: Key -> Key, out: seq<Prop>, k: Key)
    requires forall p | p in ps :: fn(p.key) != k
    ensures Lookup(Rebuild(ps, fn, out), k) == Lookup(out, k)
    decreases ps
  {
    if ps != [] {
      var w := Transformed(ps[0].val, fn);
      var out' := Put(out, fn(ps[0].key), w);
      assert ps[0] in ps;
      PutLookup(out, fn(ps[0].key), w, k);
      RebuildUntouched(ps[1..], fn, out', k);
    }
  }

  lemma {:induction false} RebuildLastWins(ps: seq<Prop>, fn: Key -> Key, out: seq<Prop>, i: nat)
    requires i < |ps|
    requires forall j :: i < j < |ps| ==> fn(ps[j].key) != fn(ps[i].key)
    ensures Lookup(Rebuild(ps, fn, out), fn(ps[i].key)) == Some(Transformed(ps[i].val, fn))
    decreases ps
  {
    var k := fn(ps[i].key);
    var w := Transformed(ps[0].val, fn);
    var out' := Put(out, fn(ps[0].key), w);
    if i == 0 {
      forall p | p in ps[1..] ensures fn(p.key) != k {
        var j :| 0 <= j < |ps[1..]| && ps[1..][j] == p;
        assert ps[j + 1] == p;
      }
      RebuildUntouched(ps[1..], fn, out', k);
      PutLookup(out, k, w, k);
    } else {
      assert ps[1..][i - 1] == ps[i];
      RebuildLastWins(ps[1..], fn, out', i - 1);
    }
  }

  lemma NoCollisionTail(ps: seq<Prop>, fn: Key -> Key, ks: set<Key>)
    requires ps != [] && NoCollision(ps, fn)
    requires forall p | p in ps :: fn(p.key) !in ks
    ensures NoCollision(ps[1..], fn)
    ensures forall p | p in ps[1..] :: fn(p.key) !in ks + {fn(ps[0].key)}
  {
    forall p | p in ps[1..] ensures fn(p.key) !in ks + {fn(ps[0].key)} {
      var j :| 0 <= j < |ps[1..]| && ps[1..][j] == p;
      assert ps[j + 1] == p;
    }
    forall i, j | 0 <= i < j < |ps[1..]| ensures fn(ps[1..][i].key) != fn(ps[1..][j].key) {
      assert ps[1..][i] == ps[i + 1] && ps[1..][j] == ps[j + 1];
    }
  }

  lemma RenamedCons(ps: seq<Prop>, fn: Key -> Key)
    requires ps != []
    ensures Renamed(ps, fn) == [Prop(fn(ps[0].key), Transformed(ps[0].val, fn))] + Renamed(ps[1..], fn)
  {
  }

  lemma {:induction false} RebuildNoCollision(ps: seq<Prop>, fn: Key -> Key, out: seq<Prop>)
    requires NoCollision(ps, fn)
    requires forall p | p in ps :: fn(p.key) !in KeySet(out)
    ensures Rebuild(ps, fn, out) == out + Renamed(ps, fn)
    decreases ps
  {
    if ps != [] {
      var k := fn(ps[0].key);
      var w := Transformed(ps[0].val, fn);
      assert ps[0] in ps;
      var out' := Put(out, k, w);
      assert out' == out + [Prop(k, w)];
      assert KeySet(out') == KeySet(out) + {k};
      NoCollisionTail(ps, fn, KeySet(out));
      calc {
        Rebuild(ps, fn, out);
        { RebuildStep(ps, fn, out); }
        Rebuild(ps[1..], fn, out');
        { RebuildNoCollision(ps[1..], fn, out'); }
        out' + Renamed(ps[1..], fn);
        { RenamedCons(ps, fn); }
        out + Renamed(ps, fn);
      }
    }
  }

  /** The keys of the transformed object are exactly the images under fn of the original keys. */
  lemma TransformedKeySet(v: Value, fn: Key -> Key)
    requires v.Obj?
    ensures Transformed(v, fn).Obj?
    ensures KeySet(Transformed(v, fn).props) == set p | p in v.props :: fn(p.key)
  {
    RebuildKeySet(v.props, fn, []);
  }

  /**
   * When several keys map to the same new key, the value of the last of
   * them (transformed if it is a plain object) is the one stored.
   */
  lemma TransformedLastWins(v: Value, fn: Key -> Key, i: nat)
    requires v.Obj? && i < |v.props|
    requires forall j :: i < j < |v.props| ==> fn(v.props[j].key) != fn(v.props[i].key)
    ensures Transformed(v, fn).Obj?
    ensures Lookup(Transformed(v, fn).props, fn(v.props[i].key)) == Some(Transformed(v.props[i].val, fn))
  {
    RebuildLastWins(v.props, fn, [], i);
  }

  /**
   * Without collisions the transformed object has the same number of
   * properties, in the same order, each renamed by fn: values that are not
   * plain objects are kept as they are, plain objects are transformed.
   */
  lemma TransformedNoCollision(v: Value, fn: Key -> Key)
    requires v.Obj? && NoCollision(v.props, fn)
    ensures Transformed(v, fn) == Obj(Renamed(v.props, fn))
    ensures forall i :: 0 <= i < |v.props| && !v.props[i].val.Obj? ==>
      Transformed(v, fn).props[i] == Prop(fn(v.props[i].key), v.props[i].val)
  {
    RebuildNoCollision(v.props, fn, []);
  }

  /** Transforming with the identity gives back a structurally equal value. */
  lemma {:induction false} TransformedIdentity(v: Value, fn: Key -> Key)
    requires WellFormed(v)
    requires forall k :: fn(k) == k
    ensures Transformed(v, fn) == v
    decreases v
  {
    if v.Obj? {
      var ps := v.props;
      TransformedNoCollision(v, fn);
      forall i | 0 <= i < |ps| ensures Renamed(ps, fn)[i] == ps[i] {
        assert ps[i] in ps;
        TransformedIdentity(ps[i].val, fn);
      }
      assert Renamed(ps, fn) == ps;
    }
  }

  // ---------------------------------------------------------------------
  // The arrays transformKeys rewrites in place.
  // ---------------------------------------------------------------------

  /** Size of a value as a tree of plain objects (a termination measure). */
  function Size(v: Value): nat
    decreases v
  {
    match v
    case Obj(ps) => 1 + SizeProps(ps)
    case _ => 1
  }

  function SizeProps(ps: seq<Prop>): nat
    decreases ps
  {
    if ps == [] then 0 else 1 + Size(ps[0].val) + SizeProps(ps[1..])
  }

  lemma RefsOfProp(ps: seq<Prop>, i: nat)
    requires i < |ps|
    ensures Refs(ps[i].val) <= RefsProps(ps)
  {
    assert ps[i] in ps;
  }

  lemma {:induction false} SizeOfProp(ps: seq<Prop>, i: nat)
    requires i < |ps|
    ensures Size(ps[i].val) < SizeProps(ps)
    decreases i
  {
    if i > 0 {
      assert ps[1..][i - 1] == ps[i];
      SizeOfProp(ps[1..], i - 1);
    }
  }

  lemma RefsOfTail(ps: seq<Prop>)
    requires ps != []
    ensures RefsProps(ps) == Refs(ps[0].val) + RefsProps(ps[1..])
  {
    assert forall p :: p in ps <==> p == ps[0] || p in ps[1..];
  }

  /**
   * One more than the highest rank of an array the value holds directly or
   * through plain objects; 0 when it holds none.
   */
  function Depth(v: Value, rank: map<Ref, nat>): nat
    requires Refs(v) <= rank.Keys
    decreases v
  {
    match v
    case Arr(a) => rank[a] + 1
    case Obj(ps) => DepthProps(ps, rank)
    case _ => 0
  }

  function DepthProps(ps: seq<Prop>, rank: map<Ref, nat>): nat
    requires RefsProps(ps) <= rank.Keys
    decreases ps
  {
    if ps == [] then 0
    else
      RefsOfTail(ps);
      var d0 := Depth(ps[0].val, rank);
      var d1 := DepthProps(ps[1..], rank);
      if d0 >= d1 then d0 else d1
  }

  lemma {:induction false} DepthBound(v: Value, rank: map<Ref, nat>, n: nat)
    requires Refs(v) <= rank.Keys
    requires forall b :: b in Refs(v) ==> rank[b] < n
    ensures Depth(v, rank) <= n
    decreases v, 1
  {
    if v.Obj? {
      DepthPropsBound(v.props, rank, n);
    }
  }

  lemma {:induction false} DepthPropsBound(ps: seq<Prop>, rank: map<Ref, nat>, n: nat)
    requires RefsProps(ps) <= rank.Keys
    requires forall b :: b in RefsProps(ps) ==> rank[b] < n
    ensures DepthProps(ps, rank) <= n
    decreases ps, 0
  {
    if ps != [] {
      RefsOfTail(ps);
      DepthBound(ps[0].val, rank, n);
      DepthPropsBound(ps[1..], rank, n);
    }
  }

  lemma {:induction false} DepthOfProp(ps: seq<Prop>, rank: map<Ref, nat>, i: nat)
    requires RefsProps(ps) <= rank.Keys && i < |ps|
    ensures Refs(ps[i].val) <= rank.Keys
    ensures Depth(ps[i].val, rank) <= DepthProps(ps, rank)
    decreases i
  {
    RefsOfTail(ps);
    RefsOfProp(ps, i);
    if i > 0 {
      assert ps[1..][i - 1] == ps[i];
      DepthOfProp(ps[1..], rank, i - 1);
    }
  }

  /**
   * The arrays are ranked: every array an element of array a holds exists,
   * and when the element is a plain object, every array it holds through
   * plain objects has a lower rank than a. Ranks rule out an array reached
   * again from itself through a plain object, on which transformKeys
   * recurses forever. An array holding an array directly, itself included,
   * is allowed: transformKeys returns such an element as it is.
   */
  ghost predicate Ranked(h: Store, rank: map<Ref, nat>)
  {
    && rank.Keys == h.Keys
    && forall a, e :: a in h && e in h[a] ==> RankedBelow(e, rank, rank[a])
  }

  /** The arrays e holds exist, and those transformKeys(e) enters have a rank below n. */
  ghost predicate RankedBelow(e: Value, rank: map<Ref, nat>, n: nat)
  {
    && Refs(e) <= rank.Keys
    && (e.Obj? ==> forall b :: b in Refs(e) ==> rank[b] < n)
  }

  /** The termination measure of transformKeys(v): the depth of a plain object, 0 for a value returned as it is. */
  function Height(v: Value, rank: map<Ref, nat>): nat
    requires Refs(v) <= rank.Keys
  {
    if v.Obj? then Depth(v, rank) else 0
  }

  lemma HeightBound(e: Value, rank: map<Ref, nat>, n: nat)
    requires RankedBelow(e, rank, n)
    ensures Height(e, rank) <= n
  {
    if e.Obj? {
      DepthBound(e, rank, n);
    }
  }

  /** Every array of h is in h', with the same length. */
  ghost predicate SameShape(h: Store, h': Store)
  {
    h'.Keys == h.Keys && forall b :: b in h ==> |h'[b]| == |h[b]|
  }

  /** Every plain object stored in an array is well-formed, as a JavaScript object is. */
  ghost predicate WellFormedStore(h: Store)
  {
    forall a, e :: a in h && e in h[a] ==> WellFormed(e)
  }

  lemma UpdateMembers(s: seq<Value>, i: nat, t: Value)
    requires i < |s|
    ensures forall e :: e in s[i := t] ==> e == t || e in s
  {
    forall e | e in s[i := t] ensures e == t || e in s {
      var j :| 0 <= j < |s| && s[i := t][j] == e;
      if j != i {
        assert s[j] == e;
      }
    }
  }

  /** Writing into array a a value that only holds arrays ranked below a keeps the store ranked. */
  lemma RankedAfterWrite(h: Store, rank: map<Ref, nat>, a: Ref, i: nat, t: Value)
    requires Ranked(h, rank) && a in h && i < |h[a]|
    requires RankedBelow(t, rank, rank[a])
    ensures Ranked(h[a := h[a][i := t]], rank)
  {
    UpdateMembers(h[a], i, t);
  }

  /**
   * The heap's invariant on its store: ranked, well-formed, and every
   * array below the next reference to allocate.
   */
  ghost predicate StoreValid(h: Store, rank: map<Ref, nat>, next: Ref)
  {
    Ranked(h, rank) && WellFormedStore(h) && forall b :: b in h ==> b < next
  }

  /** Writing a well-formed value into an array, ranked as the store requires, keeps the store valid. */
  lemma ValidAfterWrite(h: Store, rank: map<Ref, nat>, next: Ref, a: Ref, i: nat, t: Value)
    requires StoreValid(h, rank, next) && a in h && i < |h[a]| && WellFormed(t)
    requires Ranked(h[a := h[a][i := t]], rank)
    ensures StoreValid(h[a := h[a][i := t]], rank, next)
  {
    UpdateMembers(h[a], i, t);
  }

  /**
   * The arrays after transformKeys(v, fn): nothing changes unless v is a
   * plain object; then the properties are visited in key order, every
   * array value has each of its elements replaced by its transform (after
   * the transform has rewritten the arrays inside that element), and every
   * plain-object value is visited in turn.
   */
  ghost function Rewrite(v: Value, fn: Key -> Key, h: Store, rank: map<Ref, nat>): (h': Store)
    requires Ranked(h, rank) && Refs(v) <= h.Keys
    ensures Ranked(h', rank) && SameShape(h, h')
    ensures !v.Obj? ==> h' == h
    ensures forall b :: b in h && rank[b] >= Height(v, rank) ==> h'[b] == h[b]
    decreases Height(v, rank), Size(v), 0
  {
    if !IsObject(v) then h
    else RewriteProps(v.props, fn, h, rank)
  }

  ghost function RewriteProps(ps: seq<Prop>, fn: Key -> Key, h: Store, rank: map<Ref, nat>): (h': Store)
    requires Ranked(h, rank) && RefsProps(ps) <= h.Keys
    ensures Ranked(h', rank) && SameShape(h, h')
    ensures forall b :: b in h && rank[b] >= DepthProps(ps, rank) ==> h'[b] == h[b]
    decreases DepthProps(ps, rank), SizeProps(ps), 0
  {
    if ps == [] then h
    else
      RefsOfTail(ps);
      var value := ps[0].val;
      assert Depth(value, rank) <= DepthProps(ps, rank) && SizeProps(ps) > 0;
      var h1 :=
        if value.Arr? then RewriteElems(value.ref, 0, fn, h, rank)
        else if IsObject(value) then Rewrite(value, fn, h, rank)
        else h;
      RewriteProps(ps[1..], fn, h1, rank)
  }

  /**
   * The inner loop over the elements i.. of array a, overwriting each with
   * its transform: elements i.. of a end up transformed, and no other array
   * of a's rank or above changes.
   */
  ghost function RewriteElems(a: Ref, i: nat, fn: Key -> Key, h: Store, rank: map<Ref, nat>): (h': Store)
    requires Ranked(h, rank) && a in h && i <= |h[a]|
    ensures Ranked(h', rank) && SameShape(h, h')
    ensures h'[a] == TransformedFrom(h[a], i, fn)
    ensures forall b :: b in h && b != a && rank[b] >= rank[a] ==> h'[b] == h[b]
    decreases rank[a] + 1, 0, |h[a]| - i
  {
    if i == |h[a]| then
      assert h[a][..i] == h[a];
      h
    else
      var e := h[a][i];
      assert e in h[a] && RankedBelow(e, rank, rank[a]);
      HeightBound(e, rank, rank[a]);
      var h1 := Rewrite(e, fn, h, rank);
      var t := Transformed(e, fn);
      WriteElement(h, h1, rank, a, i, t);
      var h2 := h1[a := h1[a][i := t]];
      TransformedFromStep(h[a], i, fn);
      var h' := RewriteElems(a, i + 1, fn, h2, rank);
      SameShapeTrans(h, h2, h');
      h'
  }

  /** Writing a ranked element into an array of a store shaped like h keeps it ranked and shaped like h. */
  lemma WriteElement(h: Store, h1: Store, rank: map<Ref, nat>, a: Ref, i: nat, t: Value)
    requires Ranked(h1, rank) && SameShape(h, h1) && a in h && i < |h[a]| && h1[a] == h[a]
    requires RankedBelow(t, rank, rank[a])
    ensures Ranked(h1[a := h1[a][i := t]], rank) && SameShape(h, h1[a := h1[a][i := t]])
  {
    RankedAfterWrite(h1, rank, a, i, t);
  }

  lemma SameShapeTrans(h: Store, h1: Store, h2: Store)
    requires SameShape(h, h1) && SameShape(h1, h2)
    ensures SameShape(h, h2)
  {
  }

  /** One turn of the loop over the keys: the first property's effect, then the rest. */
  lemma RewritePropsStep(ps: seq<Prop>, fn: Key -> Key, h: Store, rank: map<Ref, nat>)
    requires Ranked(h, rank) && RefsProps(ps) <= h.Keys && ps != []
    ensures RefsProps(ps[1..]) <= h.Keys && Refs(ps[0].val) <= h.Keys
    ensures ps[0].val.Arr? ==>
      RewriteProps(ps, fn, h, rank) == RewriteProps(ps[1..], fn, RewriteElems(ps[0].val.ref, 0, fn, h, rank), rank)
    ensures ps[0].val.Obj? ==>
      RewriteProps(ps, fn, h, rank) == RewriteProps(ps[1..], fn, Rewrite(ps[0].val, fn, h, rank), rank)
    ensures !ps[0].val.Arr? && !ps[0].val.Obj? ==>
      RewriteProps(ps, fn, h, rank) == RewriteProps(ps[1..], fn, h, rank)
  {
    RefsOfTail(ps);
  }

  /** One turn of the loop over the elements of array a. */
  lemma RewriteElemsStep(a: Ref, i: nat, fn: Key -> Key, h: Store, rank: map<Ref, nat>)
    requires Ranked(h, rank) && a in h && i < |h[a]|
    ensures Refs(h[a][i]) <= h.Keys && Height(h[a][i], rank) <= rank[a]
    ensures var h1 := Rewrite(h[a][i], fn, h, rank);
      && a in h1 && h1[a] == h[a]
      && Ranked(h1[a := h1[a][i := Transformed(h[a][i], fn)]], rank)
      && RewriteElems(a, i, fn, h, rank)
         == RewriteElems(a, i + 1, fn, h1[a := h1[a][i := Transformed(h[a][i], fn)]], rank)
  {
    var e := h[a][i];
    assert e in h[a];
    HeightBound(e, rank, rank[a]);
    var h1 := Rewrite(e, fn, h, rank);
    var t := Transformed(e, fn);
    RankedAfterWrite(h1, rank, a, i, t);
  }

  /**
   * The loop of postProcessResponse over the rows i.. of array a: each row
   * is transformed (which rewrites the arrays inside it), and a itself is
   * only read.
   */
  ghost function RewriteRows(a: Ref, i: nat, fn: Key -> Key, h: Store, rank: map<Ref, nat>): (h': Store)
    requires Ranked(h, rank) && a in h && i <= |h[a]|
    ensures Ranked(h', rank) && SameShape(h, h')
    ensures forall b :: b in h && rank[b] >= rank[a] ==> h'[b] == h[b]
    decreases |h[a]| - i
  {
    if i == |h[a]| then h
    else
      var e := h[a][i];
      assert e in h[a];
      HeightBound(e, rank, rank[a]);
      RewriteRows(a, i + 1, fn, Rewrite(e, fn, h, rank), rank)
  }

  /** One row of postProcessResponse's loop: the row is transformed and the array itself stays as it was. */
  lemma RewriteRowsStep(a: Ref, i: nat, fn: Key -> Key, h: Store, rank: map<Ref, nat>)
    requires Ranked(h, rank) && a in h && i < |h[a]|
    ensures Refs(h[a][i]) <= h.Keys && Height(h[a][i], rank) <= rank[a]
    ensures RankedBelow(Transformed(h[a][i], fn), rank, rank[a])
    ensures var h1 := Rewrite(h[a][i], fn, h, rank);
      && a in h1 && h1[a] == h[a]
      && RewriteRows(a, i, fn, h, rank) == RewriteRows(a, i + 1, fn, h1, rank)
  {
    var e := h[a][i];
    assert e in h[a];
    HeightBound(e, rank, rank[a]);
  }

  /** Rows that hold no arrays leave every array as it was. */
  lemma {:induction false} RewriteRowsOfFlatRows(a: Ref, i: nat, fn: Key -> Key, h: Store, rank: map<Ref, nat>)
    requires Ranked(h, rank) && a in h && i <= |h[a]|
    requires forall e :: e in h[a] ==> Refs(e) == {}
    ensures RewriteRows(a, i, fn, h, rank) == h
    decreases |h[a]| - i
  {
    if i < |h[a]| {
      RewriteRowsStep(a, i, fn, h, rank);
      assert h[a][i] in h[a];
      RewriteWithoutArrays(h[a][i], fn, h, rank);
      RewriteRowsOfFlatRows(a, i + 1, fn, h, rank);
    }
  }

  /** Each element transformed, in order. */
  function TransformedAll(es: seq<Value>, fn: Key -> Key): (r: seq<Value>)
    ensures |r| == |es|
  {
    seq(|es|, i requires 0 <= i < |es| => Transformed(es[i], fn))
  }

  /** Transforming one more row appends its transform. */
  lemma TransformedAllSnoc(rows: seq<Value>, i: nat, fn: Key -> Key)
    requires i < |rows|
    ensures TransformedAll(rows[..i + 1], fn) == TransformedAll(rows[..i], fn) + [Transformed(rows[i], fn)]
  {
    assert rows[..i + 1][..i] == rows[..i];
  }

  /** Transforms keep every element ranked as it was, and make every element well-formed. */
  lemma TransformedAllRanked(rows: seq<Value>, fn: Key -> Key, rank: map<Ref, nat>, n: nat)
    requires forall e :: e in rows ==> RankedBelow(e, rank, n)
    ensures forall e :: e in TransformedAll(rows, fn) ==> RankedBelow(e, rank, n) && WellFormed(e)
  {
    forall e | e in TransformedAll(rows, fn) ensures RankedBelow(e, rank, n) && WellFormed(e) {
      var j :| 0 <= j < |rows| && TransformedAll(rows, fn)[j] == e;
      assert rows[j] in rows;
    }
  }

  /** A value that holds no array leaves every array as it was. */
  lemma {:induction false} RewriteWithoutArrays(v: Value, fn: Key -> Key, h: Store, rank: map<Ref, nat>)
    requires Ranked(h, rank) && Refs(v) == {}
    ensures Rewrite(v, fn, h, rank) == h
    decreases v, 1
  {
    if v.Obj? {
      RewritePropsWithoutArrays(v.props, fn, h, rank);
    }
  }

  lemma {:induction false} RewritePropsWithoutArrays(ps: seq<Prop>, fn: Key -> Key, h: Store, rank: map<Ref, nat>)
    requires Ranked(h, rank) && RefsProps(ps) == {}
    ensures RewriteProps(ps, fn, h, rank) == h
    decreases ps, 0
  {
    if ps != [] {
      RefsOfTail(ps);
      RewriteWithoutArrays(ps[0].val, fn, h, rank);
      RewritePropsWithoutArrays(ps[1..], fn, h, rank);
    }
  }

  /** Elements i.. of s transformed, elements before i as they are. */
  function TransformedFrom(s: seq<Value>, i: nat, fn: Key -> Key): (r: seq<Value>)
    requires i <= |s|
  {
    s[..i] + TransformedAll(s[i..], fn)
  }

  lemma TransformedFromStep(s: seq<Value>, i: nat, fn: Key -> Key)
    requires i < |s|
    ensures TransformedFrom(s[i := Transformed(s[i], fn)], i + 1, fn) == TransformedFrom(s, i, fn)
    ensures TransformedFrom(s, |s|, fn) == s
  {
    var s' := s[i := Transformed(s[i], fn)];
    var t := Transformed(s[i], fn);
    assert s'[..i + 1] == s[..i] + [t];
    assert s'[i + 1..] == s[i + 1..];
    assert TransformedAll(s[i..], fn) == [t] + TransformedAll(s[i + 1..], fn);
    assert TransformedFrom(s', i + 1, fn) == (s[..i] + [t]) + TransformedAll(s[i + 1..], fn);
    assert s[|s|..] == [] && s[..|s|] == s;
  }

  lemma Overwrite(h: Store, a: Ref, s: seq<Value>, s': seq<Value>)
    ensures h[a := s][a := s'] == h[a := s']
  {
  }

  /**
   * transformKeys with the identity changes no array: every element it
   * overwrites is overwritten with a value equal to itself.
   */
  lemma {:induction false} RewriteIdentity(v: Value, fn: Key -> Key, h: Store, rank: map<Ref, nat>)
    requires Ranked(h, rank) && WellFormedStore(h) && Refs(v) <= h.Keys
    requires forall k :: fn(k) == k
    ensures Rewrite(v, fn, h, rank) == h
    decreases Height(v, rank), Size(v), 1
  {
    if v.Obj? {
      RewritePropsIdentity(v.props, fn, h, rank);
    }
  }

  lemma {:induction false} RewritePropsIdentity(ps: seq<Prop>, fn: Key -> Key, h: Store, rank: map<Ref, nat>)
    requires Ranked(h, rank) && WellFormedStore(h) && RefsProps(ps) <= h.Keys
    requires forall k :: fn(k) == k
    ensures RewriteProps(ps, fn, h, rank) == h
    decreases DepthProps(ps, rank), SizeProps(ps), 1
  {
    if ps != [] {
      RewritePropsStep(ps, fn, h, rank);
      DepthOfProp(ps, rank, 0);
      SizeOfProp(ps, 0);
      var value := ps[0].val;
      if value.Arr? {
        RewriteElemsIdentity(value.ref, 0, fn, h, rank);
      } else if value.Obj? {
        RewriteIdentity(value, fn, h, rank);
      }
      assert DepthProps(ps[1..], rank) <= DepthProps(ps, rank);
      RewritePropsIdentity(ps[1..], fn, h, rank);
    }
  }

  lemma {:induction false} RewriteElemsIdentity(a: Ref, i: nat, fn: Key -> Key, h: Store, rank: map<Ref, nat>)
    requires Ranked(h, rank) && WellFormedStore(h) && a in h && i <= |h[a]|
    requires forall k :: fn(k) == k
    ensures RewriteElems(a, i, fn, h, rank) == h
    decreases rank[a] + 1, 0, |h[a]| - i
  {
    if i < |h[a]| {
      RewriteElemsStep(a, i, fn, h, rank);
      var e := h[a][i];
      assert e in h[a];
      RewriteIdentity(e, fn, h, rank);
      TransformedIdentity(e, fn);
      assert h[a][i := e] == h[a];
      assert h[a := h[a]] == h;
      RewriteElemsIdentity(a, i + 1, fn, h, rank);
    }
  }

  /** Rows hold no arrays through their plain objects. */
  ghost predicate FlatRows(rows: seq<Value>)
  {
    forall e :: e in rows && e.Obj? ==> Refs(e) == {}
  }

  /** One element of an array of rows: only that element changes. */
  lemma RowStep(a: Ref, i: nat, fn: Key -> Key, h: Store, rank: map<Ref, nat>)
    requires Ranked(h, rank) && a in h && i < |h[a]| && FlatRows(h[a])
    ensures var h2 := h[a := h[a][i := Transformed(h[a][i], fn)]];
      && Ranked(h2, rank) && FlatRows(h2[a])
      && RewriteElems(a, i, fn, h, rank) == RewriteElems(a, i + 1, fn, h2, rank)
  {
    RewriteElemsStep(a, i, fn, h, rank);
    var e := h[a][i];
    if e.Obj? {
      assert e in h[a];
      RewriteWithoutArrays(e, fn, h, rank);
    }
    var t := Transformed(e, fn);
    UpdateMembers(h[a], i, t);
    forall e': Value | e' in h[a][i := t] && e'.Obj? ensures Refs(e') == {} {
      if e' != t {
        assert e' in h[a];
      }
    }
  }

  /**
   * An array of rows (plain objects holding no arrays, or values that are
   * not plain objects) is rewritten element by element: element j becomes
   * its transform, so an element that is itself an array stays as it is,
   * and no other array changes.
   */
  lemma {:induction false} RewriteElemsOfRows(a: Ref, i: nat, fn: Key -> Key, h: Store, rank: map<Ref, nat>)
    requires Ranked(h, rank) && a in h && i <= |h[a]| && FlatRows(h[a])
    ensures RewriteElems(a, i, fn, h, rank) == h[a := TransformedFrom(h[a], i, fn)]
    decreases |h[a]| - i
  {
    if i == |h[a]| {
      assert TransformedFrom(h[a], i, fn) == h[a];
      assert h[a := h[a]] == h;
    } else {
      RowStep(a, i, fn, h, rank);
      var s := h[a][i := Transformed(h[a][i], fn)];
      RewriteElemsOfRows(a, i + 1, fn, h[a := s], rank);
      TransformedFromStep(h[a], i, fn);
      Overwrite(h, a, s, TransformedFrom(h[a], i, fn));
    }
  }

  lemma FlatRowsTransformed(rows: seq<Value>, fn: Key -> Key)
    requires FlatRows(rows)
    ensures FlatRows(TransformedAll(rows, fn))
  {
    forall e | e in TransformedAll(rows, fn) && e.Obj? ensures Refs(e) == {} {
      var j :| 0 <= j < |rows| && TransformedAll(rows, fn)[j] == e;
      assert rows[j] in rows;
    }
  }

  /** Every row of an array of rows is replaced by its transform, and the result is again rows. */
  lemma ArrayOfRowsRewritten(a: Ref, fn: Key -> Key, h: Store, rank: map<Ref, nat>)
    requires Ranked(h, rank) && a in h && FlatRows(h[a])
    ensures RewriteElems(a, 0, fn, h, rank) == h[a := TransformedAll(h[a], fn)]
    ensures Ranked(h[a := TransformedAll(h[a], fn)], rank)
    ensures FlatRows(TransformedAll(h[a], fn))
  {
    RewriteElemsOfRows(a, 0, fn, h, rank);
    assert TransformedFrom(h[a], 0, fn) == TransformedAll(h[a], fn);
    FlatRowsTransformed(h[a], fn);
  }

  /**
   * A plain object whose one property holds an array of rows: the result
   * keeps the same array under the new key, and that array's elements are
   * replaced, in place, by their transforms.
   */
  lemma ArrayPropertyRewritten(k: Key, a: Ref, fn: Key -> Key, h: Store, rank: map<Ref, nat>)
    requires Ranked(h, rank) && a in h && FlatRows(h[a])
    ensures Refs(Obj([Prop(k, Arr(a))])) == {a}
    ensures Transformed(Obj([Prop(k, Arr(a))]), fn) == Obj([Prop(fn(k), Arr(a))])
    ensures Rewrite(Obj([Prop(k, Arr(a))]), fn, h, rank) == h[a := TransformedAll(h[a], fn)]
  {
    var ps := [Prop(k, Arr(a))];
    SingleArrayProp(k, a, fn);
    RewritePropsStep(ps, fn, h, rank);
    assert ps[1..] == [];
    ArrayOfRowsRewritten(a, fn, h, rank);
  }

  /** A one-property object holding an array refers to that array, and only its key changes. */
  lemma SingleArrayProp(k: Key, a: Ref, fn: Key -> Key)
    ensures Refs(Obj([Prop(k, Arr(a))])) == {a}
    ensures Transformed(Obj([Prop(k, Arr(a))]), fn) == Obj([Prop(fn(k), Arr(a))])
  {
    RebuildStep([Prop(k, Arr(a))], fn, []);
  }

  /** The rows transformed n times over. */
  function TransformedTimes(rows: seq<Value>, fn: Key -> Key, n: nat): (r: seq<Value>)
    ensures |r| == |rows|
    decreases n
  {
    if n == 0 then rows else TransformedTimes(TransformedAll(rows, fn), fn, n - 1)
  }

  lemma TransformedTimesStep(rows: seq<Value>, fn: Key -> Key, n: nat)
    requires n > 0
    ensures TransformedTimes(rows, fn, n) == TransformedTimes(TransformedAll(rows, fn), fn, n - 1)
  {
  }

  /**
   * An array of rows held under n keys of one object is visited once per
   * key, so each of its rows is transformed n times.
   */
  lemma {:induction false} SharedArrayRewritten(ps: seq<Prop>, a: Ref, fn: Key -> Key, h: Store, rank: map<Ref, nat>)
    requires Ranked(h, rank) && a in h && FlatRows(h[a])
    requires forall i :: 0 <= i < |ps| ==> ps[i].val == Arr(a)
    ensures RefsProps(ps) <= {a}
    ensures RewriteProps(ps, fn, h, rank) == h[a := TransformedTimes(h[a], fn, |ps|)]
  {
    if ps == [] {
      assert h[a := h[a]] == h;
    } else {
      RefsOfTail(ps);
      var s1 := TransformedAll(h[a], fn);
      var h1 := h[a := s1];
      ArrayOfRowsRewritten(a, fn, h, rank);
      assert RewriteProps(ps, fn, h, rank) == RewriteProps(ps[1..], fn, h1, rank) by {
        RewritePropsStep(ps, fn, h, rank);
      }
      SharedArrayRewritten(ps[1..], a, fn, h1, rank);
      TransformedTimesStep(h[a], fn, |ps|);
      Overwrite(h, a, s1, TransformedTimes(s1, fn, |ps| - 1));
    }
  }

  /** Transforming the rows [{key: 1}] with fn appending "!" gives [{key + "!": 1}]. */
  lemma BangRow(key: Key, fn: Key -> Key)
    requires forall k :: fn(k) == k + "!"
    ensures TransformedAll([Obj([Prop(key, Num(1))])], fn) == [Obj([Prop(key + "!", Num(1))])]
  {
    RebuildStep([Prop(key, Num(1))], fn, []);
  }

  lemma BangRowsTwice(fn: Key -> Key)
    requires forall k :: fn(k) == k + "!"
    ensures TransformedAll(TransformedAll([Obj([Prop("k", Num(1))])], fn), fn) == [Obj([Prop("k!!", Num(1))])]
  {
    BangRow("k", fn);
    assert "k" + "!" == "k!";
    BangRow("k!", fn);
    assert "k!" + "!" == "k!!";
  }

  /**
   * With fn appending "!", a row {k: 1} in an array held under two keys
   * of one object ends up as {"k!!": 1}.
   */
  lemma SharedArrayExample(ps: seq<Prop>, fn: Key -> Key, h: Store, rank: map<Ref, nat>)
    requires forall k :: fn(k) == k + "!"
    requires Ranked(h, rank) && 0 in h && h[0] == [Obj([Prop("k", Num(1))])]
    requires |ps| == 2 && forall i :: 0 <= i < |ps| ==> ps[i].val == Arr(0)
    ensures RefsProps(ps) <= h.Keys
    ensures RewriteProps(ps, fn, h, rank)[0] == [Obj([Prop("k!!", Num(1))])]
  {
    assert FlatRows(h[0]) by {
      var row := Obj([Prop("k", Num(1))]);
      assert forall p :: p in row.props ==> p == Prop("k", Num(1));
    }
    var once := TransformedAll(h[0], fn);
    SharedArrayRewritten(ps, 0, fn, h, rank);
    assert TransformedTimes(h[0], fn, 2) == TransformedAll(once, fn) by {
      assert TransformedTimes(h[0], fn, 2) == TransformedTimes(once, fn, 1);
      assert TransformedTimes(once, fn, 1) == TransformedTimes(TransformedAll(once, fn), fn, 0);
    }
    BangRowsTwice(fn);
  }

  /**
   * The JavaScript heap of arrays that transformKeys and
   * postProcessResponse read and write.
   */
  class Heap {
    var arrays: Store
    ghost var rank: map<Ref, nat>
    /** Every allocated array is below next. */
    var next: Ref

    ghost predicate Valid()
      reads this
    {
      StoreValid(arrays, rank, next)
    }

    constructor ()
      ensures Valid() && arrays == map[] && next == 0
    {
      arrays := map[];
      rank := map[];
      next := 0;
    }

    /** A fresh array holding items, ranked above every array they hold. */
    method NewArray(items: seq<Value>, ghost r: nat) returns (a: Ref)
      requires Valid()
      requires forall e :: e in items ==> RankedBelow(e, rank, r) && WellFormed(e)
      modifies this
      ensures Valid() && a == old(next) && a !in old(arrays) && next == a + 1
      ensures arrays == old(arrays)[a := items] && rank == old(rank)[a := r]
    {
      a := next;
      var h := arrays[a := items];
      ghost var rk := rank[a := r];
      forall a', e | a' in h && e in h[a']
        ensures RankedBelow(e, rk, rk[a']) && WellFormed(e)
      {
        if a' != a {
          assert e in arrays[a'];
        }
        assert RankedBelow(e, rank, rk[a']);
        forall b | b in Refs(e) ensures b in rk && b != a && rk[b] == rank[b] {
          assert b in arrays;
        }
      }
      arrays := h;
      rank := rk;
      next := next + 1;
    }

    /**
     * `objUtil.transformKeys(v, fn)`: returns the transform of v and
     * rewrites, in place, the arrays v reaches through its plain objects.
     */
    method TransformKeys(v: Value, fn: Key -> Key) returns (r: Value)
      requires Valid() && Refs(v) <= arrays.Keys && WellFormed(v)
      modifies this
      ensures Valid() && rank == old(rank) && next == old(next)
      ensures r == Transformed(v, fn)
      ensures arrays == Rewrite(v, fn, old(arrays), rank)
      decreases Height(v, rank), Size(v)
    {
      if !IsObject(v) {
        return v;
      }
      var props := v.props;
      var keys := Keys(props);
      var out: seq<Prop> := [];
      for k := 0 to |keys|
        invariant Valid() && rank == old(rank) && next == old(next)
        invariant Rebuild(props[k..], fn, out) == Rebuild(props, fn, [])
        invariant RewriteProps(props[k..], fn, arrays, rank) == RewriteProps(props, fn, old(arrays), rank)
      {
        RefsOfProp(props, k);
        DepthOfProp(props, rank, k);
        SizeOfProp(props, k);
        RebuildStep(props[k..], fn, out);
        RewritePropsStep(props[k..], fn, arrays, rank);
        assert props[k..][0] == props[k] && props[k..][1..] == props[k + 1..];
        assert props[k] in props;
        var oldKey := keys[k];
        LookupKey(props, k);
        var value := Lookup(props, oldKey).value;
        var transformedKey := fn(oldKey);
        ghost var out0 := out;
        out := Put(out, transformedKey, value);
        if value.Arr? {
          TransformElements(value.ref, fn);
        } else if IsObject(value) {
          var t := TransformKeys(value, fn);
          PutTwice(out0, transformedKey, value, t);
          out := Put(out, transformedKey, t);
        }
        assert out == Put(out0, transformedKey, Transformed(value, fn));
      }
      r := Obj(out);
    }

    /**
     * The inner loop of transformKeys over an array value a: every element
     * is replaced, in place, by its transform.
     */
    method TransformElements(a: Ref, fn: Key -> Key)
      requires Valid() && a in arrays
      modifies this
      ensures Valid() && rank == old(rank) && next == old(next)
      ensures arrays == RewriteElems(a, 0, fn, old(arrays), rank)
      decreases rank[a] + 1, 1
    {
      var i := 0;
      while i < |arrays[a]|
        invariant Valid() && rank == old(rank) && next == old(next)
        invariant a in arrays && i <= |arrays[a]|
        invariant RewriteElems(a, i, fn, arrays, rank) == RewriteElems(a, 0, fn, old(arrays), rank)
        decreases |arrays[a]| - i
      {
        TransformElement(a, i, fn);
        i := i + 1;
      }
    }

    /** One turn of that loop: `value[i] = transformKeys(value[i], fn)`. */
    method TransformElement(a: Ref, i: nat, fn: Key -> Key)
      requires Valid() && a in arrays && i < |arrays[a]|
      modifies this
      ensures Valid() && rank == old(rank) && next == old(next)
      ensures a in arrays && |arrays[a]| == |old(arrays)[a]|
      ensures RewriteElems(a, i, fn, old(arrays), rank) == RewriteElems(a, i + 1, fn, arrays, rank)
      decreases rank[a] + 1, 0
    {
      RewriteElemsStep(a, i, fn, arrays, rank);
      var e := arrays[a][i];
      assert e in arrays[a];
      var t := TransformKeys(e, fn);
      ValidAfterWrite(arrays, rank, next, a, i, t);
      arrays := arrays[a := arrays[a][i := t]];
    }
  }
}
