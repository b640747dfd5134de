/** The key codec of index.js: the namespace path, `prefix`, `normalize`,
    the storage key of a registration and the prefix `list` scans. */
module Keys {
  import opened Wrappers
  import Js

  const Root := "services/"

  /** The first of the two namespace rewrites: drop one leading '/'. */
  function StripLeadingSlash(s: string): string {
    if |s| > 0 && s[0] == '/' then s[1..] else s
  }

  /** The namespace path segment: one leading '/' removed, then '/' appended
      unless the text is empty or already ends with '/'. */
  function NormalizeNamespace(namespace: string): (ns: string)
    ensures var body := StripLeadingSlash(namespace);
      && (ns == body || ns == body + "/")
      && (ns == body <==> body == "" || body[|body| - 1] == '/')
      && (body != "" ==> ns[|ns| - 1] == '/')
  {
    var body := StripLeadingSlash(namespace);
    if body != "" && body[|body| - 1] != '/' then body + "/" else body
  }

  /** `prefix(key)`: every stored key lives under `services/<ns>`. */
  function Prefix(ns: string, key: string): (p: string)
    ensures Root <= p && p[|Root|..] == ns + key
  {
    Root + ns + key
  }

  /** A namespace segment without slashes is written the same way with or
      without a leading and a trailing '/', and keys are prefixed by
      `services/<segment>/`. */
  lemma NamespaceSegment(segment: string, key: string)
    requires segment != "" && '/' !in segment
    ensures NormalizeNamespace(segment) == segment + "/"
    ensures NormalizeNamespace("/" + segment) == segment + "/"
    ensures NormalizeNamespace(segment + "/") == segment + "/"
    ensures NormalizeNamespace("/" + segment + "/") == segment + "/"
    ensures Prefix(NormalizeNamespace(segment), key) == "services/" + segment + "/" + key
  {
    assert segment[|segment| - 1] in segment;
    assert ("/" + segment)[1..] == segment;
    assert ("/" + segment + "/")[1..] == segment + "/";
  }

  /** Namespaces given as "/" or "" put keys directly under "services/". */
  lemma EmptyNamespace(key: string)
    ensures NormalizeNamespace("") == "" && NormalizeNamespace("/") == ""
    ensures Prefix(NormalizeNamespace("/"), key) == "services/" + key
  {
  }

  /** The characters `normalize` keeps: `[a-zA-Z0-9-]`. */
  predicate IsNameChar(c: char) {
    ('a' <= c <= 'z') || ('A' <= c <= 'Z') || ('0' <= c <= '9') || c == '-'
  }

  /** `normalize`: every character outside `[a-zA-Z0-9-]` becomes '-'. */
  function Normalize(name: string): (r: string)
    ensures |r| == |name|
    ensures forall i :: 0 <= i < |name| ==> r[i] == if IsNameChar(name[i]) then name[i] else '-'
    ensures forall i :: 0 <= i < |r| ==> IsNameChar(r[i])
    decreases |name|
  {
    if name == [] then []
    else [if IsNameChar(name[0]) then name[0] else '-'] + Normalize(name[1..])
  }

  /** A name is left unchanged by `normalize` exactly when all its
      characters are already name characters; in particular normalizing
      twice is normalizing once. */
  lemma {:induction false} NormalizeFixedPoint(name: string)
    ensures Normalize(name) == name <==> forall i :: 0 <= i < |name| ==> IsNameChar(name[i])
    ensures Normalize(Normalize(name)) == Normalize(name)
    decreases |name|
  {
    if name != [] {
      NormalizeFixedPoint(name[1..]);
      if Normalize(name) == name {
        assert forall i :: 0 <= i < |name| ==> IsNameChar(name[i]) by {
          forall i | 0 <= i < |name| ensures IsNameChar(name[i]) {
            assert Normalize(name)[i] == name[i];
          }
        }
      }
    }
  }

  /** A normalized name never contains the path separator. */
  lemma NormalizedHasNoSlash(name: string)
    ensures '/' !in Normalize(name)
  {
  }

  /** The storage key of the instance `url` of service `name`:
      `services/<ns><normalize(name)>/<hash(name + '-' + url)>`. It depends on
      nothing but the namespace, the hash, the name and the url, and it lies
      under the service's own path `prefix(normalize(name) + '/')`. */
  function StorageKey(ns: string, hash: string -> string, name: string, url: string): (key: string)
    ensures Prefix(ns, Normalize(name) + "/") <= key
    ensures key[|Prefix(ns, Normalize(name) + "/")|..] == hash(name + "-" + url)
  {
    var dir := Prefix(ns, Normalize(name) + "/");
    var key := Prefix(ns, Normalize(name) + "/" + hash(name + "-" + url));
    assert key == dir + hash(name + "-" + url);
    key
  }

  /** The key identifies the (name, url) pair whenever the two digests are
      equally long (SHA-1 in hex is always 40 characters) and do not
      collide: two registrations then share a key only if they share both
      name and url. Only these two digests are constrained; no hash is
      injective on all strings into fixed-width digests. */
  lemma {:induction false} StorageKeyInjective(ns: string, hash: string -> string, name1: string, url1: string, name2: string, url2: string)
    requires |hash(name1 + "-" + url1)| == |hash(name2 + "-" + url2)|
    requires hash(name1 + "-" + url1) == hash(name2 + "-" + url2) ==> name1 + "-" + url1 == name2 + "-" + url2
    requires StorageKey(ns, hash, name1, url1) == StorageKey(ns, hash, name2, url2)
    ensures name1 == name2 && url1 == url2
  {
    var k := StorageKey(ns, hash, name1, url1);
    var h1, h2 := hash(name1 + "-" + url1), hash(name2 + "-" + url2);
    var d1, d2 := Prefix(ns, Normalize(name1) + "/"), Prefix(ns, Normalize(name2) + "/");
    assert |k| == |d1| + |h1| == |d2| + |h2|;
    assert |name1| == |name2|;
    assert h1 == k[|d1|..] == h2;
    var s1, s2 := name1 + "-" + url1, name2 + "-" + url2;
    assert s1 == s2;
    assert name1 == s1[..|name1|] == s2[..|name2|] == name2;
    assert url1 == s1[|name1| + 1..] == s2[|name2| + 1..] == url2;
  }

  /** The key prefix that `list(name)` scans AS WRITTEN:
      `prefix(normalize(name))`, with no '/' after the name (the scan pattern
      is this followed by `*`). A falsy name scans the whole namespace. */
  function ListPrefixAsWritten(ns: string, name: Option<string>): (p: string)
    ensures Prefix(ns, "") <= p
    ensures Js.Truthy(name) ==> p + "/" == ListPrefix(ns, name)
    ensures !Js.Truthy(name) ==> p == ListPrefix(ns, name)
  {
    Prefix(ns, if Js.Truthy(name) then Normalize(name.value) else "")
  }

  /** The prefix a listing evidently means: the service's own directory
      `prefix(normalize(name) + '/')`, or the whole namespace. */
  function ListPrefix(ns: string, name: Option<string>): (p: string)
    ensures Prefix(ns, "") <= p
    ensures Js.Truthy(name) ==> p == Prefix(ns, Normalize(name.value) + "/") && p[|p| - 1] == '/'
    ensures !Js.Truthy(name) ==> p == Prefix(ns, "")
  {
    if Js.Truthy(name) then Prefix(ns, Normalize(name.value) + "/") else Prefix(ns, "")
  }

  /** The store's `KEYS <prefix>*` matches the keys that start with the prefix
      (for prefixes free of glob metacharacters). */
  predicate ScanMatches(prefix: string, key: string) {
    prefix <= key
  }

  /** As written, listing "api" also matches every key of the service
      "api-v2": names that merely begin with the listed name are included. */
  lemma ListPrefixAsWrittenOvermatches(ns: string, hash: string -> string, url: string)
    ensures Normalize("api") != Normalize("api-v2")
    ensures ScanMatches(ListPrefixAsWritten(ns, Some("api")), StorageKey(ns, hash, "api-v2", url))
    ensures !ScanMatches(ListPrefix(ns, Some("api")), StorageKey(ns, hash, "api-v2", url))
  {
    NormalizeSamples();
    var key := StorageKey(ns, hash, "api-v2", url);
    var a := Root + ns;
    var dir := a + "api-v2/";
    assert dir == Prefix(ns, Normalize("api-v2") + "/");
    assert ListPrefixAsWritten(ns, Some("api")) == a + "api" <= dir;
    assert ListPrefix(ns, Some("api")) == a + "api/";
    assert (a + "api/")[|a| + 3] == '/' != dir[|a| + 3];
  }

  lemma NormalizeSamples()
    ensures Normalize("api") == "api" && Normalize("api-v2") == "api-v2"
  {
    NormalizeFixedPoint("api");
    NormalizeFixedPoint("api-v2");
  }

  /** With the corrected prefix a named listing matches a registration key
      exactly when the two names normalize alike. */
  lemma {:induction false} ListPrefixMatchesName(ns: string, hash: string -> string, name: string, other: string, url: string)
    requires name != ""
    ensures ScanMatches(ListPrefix(ns, Some(name)), StorageKey(ns, hash, other, url)) <==> Normalize(name) == Normalize(other)
  {
    var n, m := Normalize(name), Normalize(other);
    var key := StorageKey(ns, hash, other, url);
    var dir := Prefix(ns, m + "/");
    var p := ListPrefix(ns, Some(name));
    var base := |Root + ns|;
    assert p == Root + ns + n + "/";
    assert dir == Root + ns + m + "/";
    if p <= key {
      NormalizedHasNoSlash(name);
      NormalizedHasNoSlash(other);
      var tail := key[base + |m| + 1..];
      assert key == Root + ns + (m + "/" + tail);
      assert (Root + ns + (n + "/"))[base..] == n + "/";
      assert key[base..] == m + "/" + tail;
      SegmentPrefix(n, m, tail);
    }
  }

  /** Two slash-free path segments, one a prefix-with-separator of the
      other's path, are the same segment. */
  lemma SegmentPrefix(n: string, m: string, tail: string)
    requires '/' !in n && '/' !in m
    requires n + "/" <= m + "/" + tail
    ensures n == m
  {
    SegmentNotShorter(n, m, tail);
    SegmentNotLonger(n, m, tail);
    assert n == (n + "/")[..|n|] == (m + "/" + tail)[..|m|] == m;
  }

  lemma SegmentNotShorter(n: string, m: string, tail: string)
    requires '/' !in m
    ensures n + "/" <= m + "/" + tail ==> |n| >= |m|
  {
    if |n| < |m| {
      assert (n + "/")[|n|] == '/';
      assert (m + "/" + tail)[|n|] == m[|n|] && m[|n|] in m;
    }
  }

  lemma SegmentNotLonger(n: string, m: string, tail: string)
    requires '/' !in n
    ensures n + "/" <= m + "/" + tail ==> |n| <= |m|
  {
    if |n| > |m| {
      assert (m + "/" + tail)[|m|] == '/';
      assert (n + "/")[|m|] == n[|m|] && n[|m|] in n;
    }
  }

  /** Without a name, every registration key of the namespace is listed. */
  lemma ListPrefixWholeNamespace(ns: string, hash: string -> string, name: Option<string>, other: string, url: string)
    requires !Js.Truthy(name)
    ensures ScanMatches(ListPrefix(ns, name), StorageKey(ns, hash, other, url))
  {
    assert ListPrefix(ns, name) == Prefix(ns, "") <= Prefix(ns, Normalize(other) + "/");
  }
}
