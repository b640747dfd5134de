/** The lookup side of index.js: `list` (scan, batch read, tolerant
    decode) and `lookup` (one random pick from the listing). */
module Listing {
  import opened Wrappers
  import Keys

  /** A parsed JSON value. Numbers are kept as reals; only their truthiness
      matters here. */
  datatype Json =
    | Null
    | Bool(b: bool)
    | Number(n: real)
    | Str(s: string)
    | Arr(items: seq<Json>)
    | Obj(fields: map<string, Json>)

  /** JavaScript truthiness of a parsed value: `null`, `false`, `0` and `''`
      are falsy; arrays and objects are truthy. */
  predicate Truthy(v: Json) {
    match v
    case Null => false
    case Bool(b) => b
    case Number(n) => n != 0.0
    case Str(s) => s != ""
    case Arr(_) => true
    case Obj(_) => true
  }

  /** A failed store call, passed on to the caller untouched. */
  datatype StoreError = StoreError(message: string)

  /** `JSON.parse(node)` inside `try`/`catch`, for one batch-read reply.
      A missing key (`null` reply) parses as `null`; text that `decode`
      rejects is caught and becomes `null` too. */
  function Parse(reply: Option<string>, decode: string -> Option<Json>): (v: Json)
    ensures reply.None? ==> v == Null
    ensures reply.Some? && decode(reply.value).None? ==> v == Null
    ensures reply.Some? && decode(reply.value).Some? ==> v == decode(reply.value).value
    ensures Truthy(v) ==> reply.Some? && decode(reply.value) == Some(v)
  {
    match reply
    case None => Null
    case Some(text) => match decode(text) { case None => Null case Some(v) => v }
  }

  /** `.filter(function (val) { return val; })`. */
  function KeepTruthy(vs: seq<Json>): (r: seq<Json>)
    ensures |r| <= |vs|
    ensures forall v :: v in r ==> Truthy(v) && v in vs
    decreases |vs|
  {
    if vs == [] then []
    else (if Truthy(vs[0]) then [vs[0]] else []) + KeepTruthy(vs[1..])
  }

  /** The values `list` hands back for a batch-read reply: the replies
      mapped through `Parse` and then filtered for truthiness. */
  function Survivors(replies: seq<Option<string>>, decode: string -> Option<Json>): (r: seq<Json>)
    ensures |r| <= |replies|
    ensures forall v :: v in r <==> Truthy(v) && v in ParseAll(replies, decode)
  {
    var vs := ParseAll(replies, decode);
    assert forall v :: v in KeepTruthy(vs) <==> Truthy(v) && v in vs by {
      forall v ensures v in KeepTruthy(vs) <==> Truthy(v) && v in vs {
        KeepTruthyMembers(vs, v);
      }
    }
    KeepTruthy(vs)
  }

  /** `replies.map(...)`: every reply parsed, in order. */
  function ParseAll(replies: seq<Option<string>>, decode: string -> Option<Json>): (vs: seq<Json>)
    ensures |vs| == |replies|
    ensures forall i :: 0 <= i < |replies| ==> vs[i] == Parse(replies[i], decode)
  {
    seq(|replies|, i requires 0 <= i < |replies| => Parse(replies[i], decode))
  }

  /** The filter keeps order: filtering a concatenation is concatenating
      the filtered parts. */
  lemma {:induction false} KeepTruthyAppend(a: seq<Json>, b: seq<Json>)
    ensures KeepTruthy(a + b) == KeepTruthy(a) + KeepTruthy(b)
    decreases |a|
  {
    if a == [] {
      assert a + b == b;
    } else {
      assert (a + b)[0] == a[0];
      assert (a + b)[1..] == a[1..] + b;
      KeepTruthyAppend(a[1..], b);
    }
  }

  /** A value survives exactly when it occurs among the parsed replies and
      is truthy. */
  lemma {:induction false} KeepTruthyMembers(vs: seq<Json>, v: Json)
    ensures v in KeepTruthy(vs) <==> v in vs && Truthy(v)
    decreases |vs|
  {
    if vs != [] {
      KeepTruthyMembers(vs[1..], v);
      assert vs == [vs[0]] + vs[1..];
    }
  }

  /** When every parsed reply is truthy, nothing is dropped. */
  lemma {:induction false} KeepTruthyAllTruthy(vs: seq<Json>)
    requires forall i :: 0 <= i < |vs| ==> Truthy(vs[i])
    ensures KeepTruthy(vs) == vs
    decreases |vs|
  {
    if vs != [] {
      KeepTruthyAllTruthy(vs[1..]);
    }
  }

  /** Parsing distributes over concatenation of the batch reply. */
  lemma SurvivorsAppend(a: seq<Option<string>>, b: seq<Option<string>>, decode: string -> Option<Json>)
    ensures Survivors(a + b, decode) == Survivors(a, decode) + Survivors(b, decode)
  {
    ParseAllAppend(a, b, decode);
    KeepTruthyAppend(ParseAll(a, decode), ParseAll(b, decode));
  }

  lemma ParseAllAppend(a: seq<Option<string>>, b: seq<Option<string>>, decode: string -> Option<Json>)
    ensures ParseAll(a + b, decode) == ParseAll(a, decode) + ParseAll(b, decode)
  {
    var l, r := ParseAll(a + b, decode), ParseAll(a, decode) + ParseAll(b, decode);
    forall i | 0 <= i < |a + b| ensures l[i] == r[i] {
      if i >= |a| {
        assert (a + b)[i] == b[i - |a|];
      }
    }
  }

  /** Replies that all decode to truthy values all survive. */
  lemma SurvivorsAllDecodable(replies: seq<Option<string>>, decode: string -> Option<Json>)
    requires forall i :: 0 <= i < |replies| ==> Truthy(Parse(replies[i], decode))
    ensures Survivors(replies, decode) == ParseAll(replies, decode)
  {
    KeepTruthyAllTruthy(ParseAll(replies, decode));
  }

  /** A single reply that does not decode to a truthy value leaves nothing. */
  lemma SurvivorsOfDropped(bad: Option<string>, decode: string -> Option<Json>)
    requires !Truthy(Parse(bad, decode))
    ensures Survivors([bad], decode) == []
  {
    assert ParseAll([bad], decode) == [Parse(bad, decode)];
  }

  /** One reply that does not decode to a truthy value, among replies that
      all do, costs exactly that one value: the others come back, in order. */
  lemma OneBadReply(a: seq<Option<string>>, bad: Option<string>, b: seq<Option<string>>, decode: string -> Option<Json>)
    requires forall i :: 0 <= i < |a| ==> Truthy(Parse(a[i], decode))
    requires forall i :: 0 <= i < |b| ==> Truthy(Parse(b[i], decode))
    requires !Truthy(Parse(bad, decode))
    ensures Survivors(a + [bad] + b, decode) == Survivors(a, decode) + Survivors(b, decode)
    ensures |Survivors(a + [bad] + b, decode)| == |a| + |b|
  {
    var sa, sb := Survivors(a, decode), Survivors(b, decode);
    SurvivorsAppend(a, [bad], decode);
    SurvivorsOfDropped(bad, decode);
    assert Survivors(a + [bad], decode) == sa + [] == sa;
    SurvivorsAppend(a + [bad], b, decode);
    assert Survivors(a + [bad] + b, decode) == sa + sb;
    SurvivorsAllDecodable(a, decode);
    SurvivorsAllDecodable(b, decode);
    assert |sa| == |a| && |sb| == |b|;
  }

  /** The store's `KEYS <prefix>*` over the keys it holds: those that the
      pattern matches, in the order given. */
  function ScanKeys(stored: seq<string>, prefix: string): (found: seq<string>)
    ensures |found| <= |stored|
    ensures forall k :: k in found <==> k in stored && Keys.ScanMatches(prefix, k)
    decreases |stored|
  {
    if stored == [] then []
    else (if Keys.ScanMatches(prefix, stored[0]) then [stored[0]] else []) + ScanKeys(stored[1..], prefix)
  }

  /** `list(name)`: scan the keys under the listing prefix of `name` (the
      service's own directory, or the whole namespace for a falsy name),
      batch-read them, keep the truthy decoded values. `stored` is the set of
      keys the scan sees, or the error the scan fails with; `batchGet`
      answers the batch read for the keys it is given. A failed scan or
      batch read is reported unchanged; an empty scan or an empty batch
      reply is the empty listing, and the batch read is then not consulted. */
  function List(ns: string, name: Option<string>,
                stored: Result<seq<string>, StoreError>,
                batchGet: seq<string> -> Result<seq<Option<string>>, StoreError>,
                decode: string -> Option<Json>): (r: Result<seq<Json>, StoreError>)
    ensures stored.Failure? ==> r == Failure(stored.error)
    ensures stored.Success? ==> var found := ScanKeys(stored.value, Keys.ListPrefix(ns, name));
      && (found == [] ==> r == Success([]))
      && (found != [] && batchGet(found).Failure? ==> r == Failure(batchGet(found).error))
      && (found != [] && batchGet(found).Success? ==>
            r.Success? && |r.value| <= |batchGet(found).value|)
    ensures stored.Success? ==> var found := ScanKeys(stored.value, Keys.ListPrefix(ns, name));
      found != [] && batchGet(found).Success? ==> r == Success(Survivors(batchGet(found).value, decode))
    ensures r.Success? ==> forall v :: v in r.value ==> Truthy(v)
  {
    match stored
    case Failure(e) => Failure(e)
    case Success(all) =>
      var found := ScanKeys(all, Keys.ListPrefix(ns, name));
      if found == [] then Success([])
      else
        match batchGet(found)
        case Failure(e) => Failure(e)
        case Success(replies) =>
          if replies == [] then Success([]) else Success(Survivors(replies, decode))
  }

  /** A named listing reads the registration key of a service exactly when
      that key is stored and the service's name normalizes like the listed
      name: no other service's registrations are read. */
  lemma ListReadsOnlyName(ns: string, hash: string -> string, stored: seq<string>, name: string, other: string, url: string)
    requires name != ""
    ensures var key := Keys.StorageKey(ns, hash, other, url);
      (key in ScanKeys(stored, Keys.ListPrefix(ns, Some(name))) <==>
       key in stored && Keys.Normalize(name) == Keys.Normalize(other))
  {
    Keys.ListPrefixMatchesName(ns, hash, name, other, url);
  }

  /** A listing contains every value that some reply decodes to, when that
      value is truthy: a tolerant decode drops only what it must. */
  lemma ListKeepsDecodable(ns: string, name: Option<string>, stored: seq<string>,
                           batchGet: seq<string> -> Result<seq<Option<string>>, StoreError>,
                           decode: string -> Option<Json>, i: nat, text: string, v: Json)
    requires var found := ScanKeys(stored, Keys.ListPrefix(ns, name));
      && found != [] && batchGet(found).Success?
      && i < |batchGet(found).value| && batchGet(found).value[i] == Some(text)
    requires decode(text) == Some(v) && Truthy(v)
    ensures List(ns, name, Success(stored), batchGet, decode).Success?
    ensures v in List(ns, name, Success(stored), batchGet, decode).value
  {
    var found := ScanKeys(stored, Keys.ListPrefix(ns, name));
    var parsed := ParseAll(batchGet(found).value, decode);
    assert parsed[i] == v;
    KeepTruthyMembers(parsed, v);
  }

  /** A number drawn by `Math.random()`: in [0, 1). */
  type UnitInterval = r: real | 0.0 <= r < 1.0

  /** `x | 0` for a non-negative number: truncate, then wrap to a signed
      32-bit integer (ToInt32). */
  function ToInt32(x: real): (i: int)
    requires x >= 0.0
    ensures -0x8000_0000 <= i < 0x8000_0000
    ensures x < 0x8000_0000 as real ==> i == x.Floor
  {
    var w := x.Floor % 0x1_0000_0000;
    if w >= 0x8000_0000 then w - 0x1_0000_0000 else w
  }

  /** `(Math.random() * list.length) | 0`. */
  function PickIndex(r: UnitInterval, n: nat): (i: int)
    ensures -0x8000_0000 <= i < 0x8000_0000
  {
    ToInt32(r * n as real)
  }

  /** For every list shorter than 2^31 the pick is a valid index. */
  lemma PickIndexInRange(r: UnitInterval, n: nat)
    requires 0 < n < 0x8000_0000
    ensures 0 <= PickIndex(r, n) < n
  {
    var x := r * n as real;
    ScaledBelow(r, n);
    var f := x.Floor;
    assert f as real <= x;
    assert 0 <= f < n;
    assert f % 0x1_0000_0000 == f;
  }

  lemma ScaledBelow(r: UnitInterval, n: nat)
    requires 0 < n
    ensures 0.0 <= r * n as real < n as real
  {
    var m := n as real;
    assert 0.0 < 1.0 - r && 0.0 < m;
    assert (1.0 - r) * m > 0.0;
    assert m - r * m == (1.0 - r) * m;
  }

  /** `lookup`: a failed listing is reported unchanged; an empty listing
      gives `null` (None) and no error; otherwise the element at the picked
      index. An index out of range (possible only for lists of 2^31 or more
      elements) reads `undefined`, also None here. */
  function Lookup(listed: Result<seq<Json>, StoreError>, r: UnitInterval): (res: Result<Option<Json>, StoreError>)
    ensures listed.Failure? <==> res.Failure?
    ensures listed.Failure? ==> res.error == listed.error
    ensures listed.Success? && listed.value == [] ==> res == Success(None)
    ensures listed.Success? && 0 < |listed.value| < 0x8000_0000 ==>
      res.Success? && res.value.Some? && res.value.value in listed.value
  {
    match listed
    case Failure(e) => Failure(e)
    case Success(list) =>
      if |list| == 0 then Success(None)
      else
        var i := PickIndex(r, |list|);
        if |list| < 0x8000_0000 then PickIndexInRange(r, |list|); Success(Some(list[i]))
        else if 0 <= i < |list| then Success(Some(list[i])) else Success(None)
  }
}
