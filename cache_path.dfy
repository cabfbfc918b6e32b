/** Where a request's response is cached: `path_from_uri` of src/main.rs. */
module CachePath {

  /** The fixed cache directory. */
  const CacheDirPath: string := "/var/lib/simple_http_cache"

  /** What every cache path starts with: the directory and a separator. */
  const Prefix: string := CacheDirPath + "/"

  /** The characters `path_from_uri` replaces. */
  predicate IsSeparator(c: char)
  {
    c == '/' || c == '?' || c == '&' || c == '='
  }

  /** What each replaced character becomes. */
  const Filler: char := '_'

  /** The effect of the four replacements on one character, applied in one pass. */
  function Sanitize(c: char): char
  {
    if IsSeparator(c) then Filler else c
  }

  /** `s.replace(from, to)` for one-character patterns: every occurrence is
      replaced, every other character kept in place. */
  function Replace(s: string, from: char, to: char): (r: string)
    ensures |r| == |s|
    ensures forall i :: 0 <= i < |s| ==> r[i] == (if s[i] == from then to else s[i])
  {
    if s == [] then [] else [if s[0] == from then to else s[0]] + Replace(s[1..], from, to)
  }

  /** The file name: the URI text after the chain of four replacements. */
  function FileName(uri: string): (name: string)
    ensures |name| == |uri|
    ensures forall i :: 0 <= i < |uri| ==> name[i] == Sanitize(uri[i])
  {
    Replace(Replace(Replace(Replace(uri, '/', Filler), '?', Filler), '&', Filler), '=', Filler)
  }

  /** The cache file path of a URI: the directory, a separator and the file name.
      Length is preserved and each URI character maps to the character at the
      same offset after the prefix. */
  function PathFromUri(uri: string): (path: string)
    ensures |path| == |Prefix| + |uri|
    ensures path[..|Prefix|] == Prefix
    ensures forall i :: 0 <= i < |uri| ==> path[|Prefix| + i] == Sanitize(uri[i])
  {
    CacheDirPath + "/" + FileName(uri)
  }

  /** The file name after the directory prefix contains none of `/`, `?`, `&`
      or `=`: it is a single path component. */
  lemma {:induction false} NameIsFlat(uri: string)
    ensures forall c :: c in PathFromUri(uri)[|Prefix|..] ==> !IsSeparator(c)
  {
    var path := PathFromUri(uri);
    forall c | c in path[|Prefix|..] ensures !IsSeparator(c) {
      var j :| 0 <= j < |path[|Prefix|..]| && path[|Prefix|..][j] == c;
      assert path[|Prefix| + j] == Sanitize(uri[j]);
    }
  }

  /** Two URIs share a cache path exactly when they have the same length and
      agree at every position once separators are replaced by the filler. */
  lemma {:induction false} SamePathIff(u: string, v: string)
    ensures PathFromUri(u) == PathFromUri(v) <==>
      |u| == |v| && forall i :: 0 <= i < |u| ==> Sanitize(u[i]) == Sanitize(v[i])
  {
    var pu, pv := PathFromUri(u), PathFromUri(v);
    if pu == pv {
      assert |u| == |v|;
      forall i | 0 <= i < |u| ensures Sanitize(u[i]) == Sanitize(v[i]) {
        assert pu[|Prefix| + i] == pv[|Prefix| + i];
      }
    }
    if |u| == |v| && forall i :: 0 <= i < |u| ==> Sanitize(u[i]) == Sanitize(v[i]) {
      forall k | 0 <= k < |pu| ensures pu[k] == pv[k] {
        if k < |Prefix| {
          assert pu[..|Prefix|][k] == pv[..|Prefix|][k];
        } else {
          assert pu[|Prefix| + (k - |Prefix|)] == pv[|Prefix| + (k - |Prefix|)];
        }
      }
    }
  }

  /** Exchanging one separator of a URI for another separator does not change
      its cache path. */
  lemma {:induction false} SeparatorSwapSharesPath(uri: string, i: nat, c: char)
    requires i < |uri| && IsSeparator(uri[i]) && IsSeparator(c)
    ensures PathFromUri(uri[i := c]) == PathFromUri(uri)
  {
    var v := uri[i := c];
    forall k | 0 <= k < |v| ensures Sanitize(v[k]) == Sanitize(uri[k]) {
    }
    SamePathIff(v, uri);
  }

  /** The derivation is lossy: `/a/b`, `/a?b`, `/a&b` and `/a=b` are four
      different URIs with one and the same cache file. */
  lemma Collision()
    ensures "/a/b" != "/a?b" && "/a/b" != "/a&b" && "/a/b" != "/a=b"
    ensures PathFromUri("/a/b") == PathFromUri("/a?b") == PathFromUri("/a&b") == PathFromUri("/a=b")
  {
    var u := "/a/b";
    assert u[2 := '?'] == "/a?b" && u[2 := '&'] == "/a&b" && u[2 := '='] == "/a=b";
    SeparatorSwapSharesPath(u, 2, '?');
    SeparatorSwapSharesPath(u, 2, '&');
    SeparatorSwapSharesPath(u, 2, '=');
  }

  /** A URI shares its cache file with its own file name: the file name is a
      fixed point of the derivation. */
  lemma {:induction false} FileNameSharesPath(uri: string)
    ensures PathFromUri(FileName(uri)) == PathFromUri(uri)
  {
    var name := FileName(uri);
    forall i | 0 <= i < |uri| ensures Sanitize(name[i]) == Sanitize(uri[i]) {
      assert name[i] == Sanitize(uri[i]);
    }
    SamePathIff(name, uri);
  }
}
