/**
 The table allowlist: the comma-separated configuration value, the path-segment match, and the
 two checks around URI normalization.
 */
module Allowlist {
  import opened Wrappers

  // ----- Splitting -----

  /** `parts` with `c` in front: a separator opens a new first part. */
  function Push(c: char, sep: char, parts: seq<string>): (r: seq<string>)
    requires |parts| >= 1
    ensures |r| >= 1
  {
    if c == sep then [[]] + parts else [[c] + parts[0]] + parts[1..]
  }

  /** As `str::split`: n separators give n + 1 parts. */
  function Split(s: string, sep: char): (parts: seq<string>)
    ensures |parts| >= 1
  {
    if s == [] then [[]] else Push(s[0], sep, Split(s[1..], sep))
  }

  function Join(parts: seq<string>, sep: char): string
    requires parts != []
  {
    if |parts| == 1 then parts[0] else parts[0] + [sep] + Join(parts[1..], sep)
  }

  lemma {:induction false} SplitOfPlain(s: string, sep: char)
    requires sep !in s
    ensures Split(s, sep) == [s]
  {
    if s == [] {
    } else {
      SplitOfPlain(s[1..], sep);
      assert s == [s[0]] + s[1..];
    }
  }

  lemma {:induction false} SplitAtFirst(a: string, sep: char, b: string)
    requires sep !in a
    ensures Split(a + [sep] + b, sep) == [a] + Split(b, sep)
  {
    var s := a + [sep] + b;
    if a == [] {
      assert s[1..] == b;
    } else {
      SplitAtFirst(a[1..], sep, b);
      assert s[1..] == a[1..] + [sep] + b;
      assert a == [a[0]] + a[1..];
      assert ([a[1..]] + Split(b, sep))[1..] == Split(b, sep);
    }
  }

  lemma {:induction false} SplitOfJoin(parts: seq<string>, sep: char)
    requires parts != [] && forall p | p in parts :: sep !in p
    ensures Split(Join(parts, sep), sep) == parts
  {
    if |parts| == 1 {
      SplitOfPlain(parts[0], sep);
    } else {
      SplitOfJoin(parts[1..], sep);
      SplitAtFirst(parts[0], sep, Join(parts[1..], sep));
    }
  }

  lemma {:induction false} SplitPartsArePlain(s: string, sep: char)
    ensures forall p | p in Split(s, sep) :: sep !in p
  {
    if s == [] {
    } else {
      SplitPartsArePlain(s[1..], sep);
    }
  }

  lemma JoinOfPush(c: char, sep: char, parts: seq<string>)
    requires |parts| >= 1
    ensures Join(Push(c, sep, parts), sep) == [c] + Join(parts, sep)
  {
    var pushed := Push(c, sep, parts);
    if c == sep {
      assert pushed[1..] == parts;
      assert pushed[0] + [sep] + Join(parts, sep) == [c] + Join(parts, sep);
    } else if |parts| > 1 {
      var rest := Join(parts[1..], sep);
      assert pushed[1..] == parts[1..];
      assert ([c] + parts[0]) + [sep] + rest == [c] + (parts[0] + [sep] + rest);
    }
  }

  /** So the parts of a text are the only separator-free ones that join to it. */
  lemma {:induction false} JoinOfSplit(s: string, sep: char)
    ensures Join(Split(s, sep), sep) == s
  {
    if s == [] {
    } else {
      JoinOfSplit(s[1..], sep);
      JoinOfPush(s[0], sep, Split(s[1..], sep));
    }
  }

  lemma {:induction false} SplitOfTerminated(s: string, sep: char)
    ensures Split(s + [sep], sep) == Split(s, sep) + [[]]
  {
    if s == [] {
      assert s + [sep] == [sep] && [sep][1..] == [];
    } else {
      SplitOfTerminated(s[1..], sep);
      assert (s + [sep])[0] == s[0] && (s + [sep])[1..] == s[1..] + [sep];
    }
  }

  lemma {:induction false} LastPart(s: string, sep: char)
    requires s != [] && s[|s| - 1] != sep
    ensures var parts := Split(s, sep); parts[|parts| - 1] != []
  {
    if |s| == 1 {
    } else {
      LastPart(s[1..], sep);
    }
  }

  // ----- The match -----

  function StripTrailingSlash(prefix: string): string {
    if prefix != [] && prefix[|prefix| - 1] == '/' then prefix[..|prefix| - 1] else prefix
  }

  predicate MatchesStripped(uri: string, p: string) {
    uri == p || (p <= uri && |p| < |uri| && uri[|p|] == '/')
  }

  predicate IsAllowed(uri: string, allowlist: Option<seq<string>>) {
    match allowlist
    case None => true
    case Some(prefixes) => exists p | p in prefixes :: MatchesStripped(uri, StripTrailingSlash(p))
  }

  lemma PushKeepsPrefix(c: char, sep: char, p: seq<string>, u: seq<string>)
    requires |p| >= 1 && |u| >= 1
    ensures Push(c, sep, p) <= Push(c, sep, u) <==> p <= u
  {
    var pp, pu := Push(c, sep, p), Push(c, sep, u);
    if c == sep {
      assert pp[1..] == p && pu[1..] == u;
    } else {
      assert pp[0][1..] == p[0] && pu[0][1..] == u[0];
      assert pp[1..] == p[1..] && pu[1..] == u[1..];
      assert p == [p[0]] + p[1..] && u == [u[0]] + u[1..];
    }
  }

  lemma PushOfOtherIsNoPrefix(c: char, d: char, sep: char, p: seq<string>, u: seq<string>)
    requires |p| >= 1 && |u| >= 1 && c != d
    ensures !(Push(c, sep, p) <= Push(d, sep, u))
  {
    var pp, pu := Push(c, sep, p), Push(d, sep, u);
    assert |pp[0]| != |pu[0]| || pp[0][0] != pu[0][0];
  }

  lemma MatchOfTail(uri: string, p: string)
    requires p != [] && uri != []
    ensures MatchesStripped(uri, p) <==> p[0] == uri[0] && MatchesStripped(uri[1..], p[1..])
  {
    assert p == [p[0]] + p[1..] && uri == [uri[0]] + uri[1..];
  }

  /** The character-level test is the segment-level one: the segments of the prefix are the first
      segments of the URI. */
  lemma {:induction false} MatchIsSegmentPrefix(uri: string, p: string)
    ensures MatchesStripped(uri, p) <==> Split(p, '/') <= Split(uri, '/')
  {
    if p == [] {
      assert uri != [] && uri[0] != '/' ==> Split(uri, '/')[0] != [];
    } else if uri == [] {
      assert p[0] == '/' ==> |Split(p, '/')| >= 2;
      assert p[0] != '/' ==> Split(p, '/')[0] != [];
    } else {
      MatchOfTail(uri, p);
      MatchIsSegmentPrefix(uri[1..], p[1..]);
      var pr, ur := Split(p[1..], '/'), Split(uri[1..], '/');
      if p[0] == uri[0] {
        PushKeepsPrefix(p[0], '/', pr, ur);
      } else {
        PushOfOtherIsNoPrefix(p[0], uri[0], '/', pr, ur);
      }
    }
  }

  /** The segments a configured prefix stands for: its own, without the empty one behind a
      trailing slash. */
  function PrefixSegments(prefix: string): seq<string> {
    var segments := Split(prefix, '/');
    var last := |segments| - 1;
    if last > 0 && segments[last] == [] then segments[..last] else segments
  }

  lemma StrippedSegments(prefix: string)
    ensures Split(StripTrailingSlash(prefix), '/') == PrefixSegments(prefix)
  {
    var last := |prefix| - 1;
    if prefix != [] && prefix[last] == '/' {
      SplitOfTerminated(prefix[..last], '/');
      assert prefix == prefix[..last] + ['/'];
    } else if prefix != [] {
      LastPart(prefix, '/');
    }
  }

  /** An absent allowlist admits every URI.  One that is set admits a URI exactly when the segments
      of some configured prefix, written with or without a trailing slash, are its first ones. */
  lemma AllowedIffSegmentPrefix(uri: string, allowlist: Option<seq<string>>)
    ensures IsAllowed(uri, allowlist) <==>
            allowlist.None? || exists p | p in allowlist.value :: PrefixSegments(p) <= Split(uri, '/')
  {
    if allowlist.Some? {
      forall p | p in allowlist.value
        ensures MatchesStripped(uri, StripTrailingSlash(p)) <==> PrefixSegments(p) <= Split(uri, '/')
      {
        MatchIsSegmentPrefix(uri, StripTrailingSlash(p));
        StrippedSegments(p);
      }
    }
  }

  // ----- The configuration value -----

  /** Unicode White_Space, as `str::trim` uses it. */
  predicate IsWhitespace(c: char) {
    var n := c as int;
    || 0x9 <= n <= 0xD || n == 0x20 || n == 0x85 || n == 0xA0 || n == 0x1680
    || 0x2000 <= n <= 0x200A || n == 0x2028 || n == 0x2029 || n == 0x202F || n == 0x205F || n == 0x3000
  }

  predicate IsTrimmed(s: string) {
    s != [] ==> !IsWhitespace(s[0]) && !IsWhitespace(s[|s| - 1])
  }

  function TrimStart(s: string): (r: string)
    ensures |r| <= |s|
    ensures r != [] ==> !IsWhitespace(r[0]) && r[|r| - 1] == s[|s| - 1]
    ensures forall c | c in r :: c in s
  {
    if s != [] && IsWhitespace(s[0]) then TrimStart(s[1..]) else s
  }

  function TrimEnd(s: string): (r: string)
    ensures |r| <= |s|
    ensures r != [] ==> !IsWhitespace(r[|r| - 1]) && r[0] == s[0]
    ensures forall c | c in r :: c in s
  {
    if s != [] && IsWhitespace(s[|s| - 1]) then TrimEnd(s[..|s| - 1]) else s
  }

  function Trim(s: string): (r: string)
    ensures IsTrimmed(r)
    ensures IsTrimmed(s) ==> r == s
    ensures forall c | c in r :: c in s
  {
    TrimEnd(TrimStart(s))
  }

  /** Trimmed parts, without those that are empty. */
  function KeepNonEmpty(parts: seq<string>): (r: seq<string>)
    ensures forall p | p in r :: p != [] && IsTrimmed(p)
  {
    if parts == [] then []
    else
      var t := Trim(parts[0]);
      (if t == [] then [] else [t]) + KeepNonEmpty(parts[1..])
  }

  function LoadAllowedPrefixes(raw: Option<string>): Option<seq<string>> {
    match raw
    case None => None
    case Some(text) =>
      var prefixes := KeepNonEmpty(Split(text, ','));
      if prefixes == [] then None else Some(prefixes)
  }

  predicate CleanPrefix(p: string) {
    p != [] && IsTrimmed(p) && ',' !in p
  }

  lemma {:induction false} KeepsCleanParts(parts: seq<string>)
    requires forall p | p in parts :: CleanPrefix(p)
    ensures KeepNonEmpty(parts) == parts
  {
    if parts == [] {
    } else {
      KeepsCleanParts(parts[1..]);
      assert parts[0] in parts;
      assert parts == [parts[0]] + parts[1..];
    }
  }

  lemma {:induction false} KeptPartsArePlain(parts: seq<string>)
    requires forall p | p in parts :: ',' !in p
    ensures forall p | p in KeepNonEmpty(parts) :: CleanPrefix(p)
  {
    if parts == [] {
    } else {
      KeptPartsArePlain(parts[1..]);
      assert parts[0] in parts;
      assert ',' !in Trim(parts[0]);
    }
  }

  predicate IsBlank(s: string) {
    forall c | c in s :: IsWhitespace(c)
  }

  /** `part` is `core` with whitespace around it, and `core` has none at its ends. */
  ghost predicate Pads(part: string, core: string) {
    IsTrimmed(core) && exists before, after :: IsBlank(before) && IsBlank(after) && part == before + core + after
  }

  lemma {:induction false} TrimStartOfPadded(before: string, s: string)
    requires IsBlank(before) && (s != [] ==> !IsWhitespace(s[0]))
    ensures TrimStart(before + s) == s
  {
    if before == [] {
      assert before + s == s;
    } else {
      TrimStartOfPadded(before[1..], s);
      assert (before + s)[1..] == before[1..] + s;
    }
  }

  lemma {:induction false} TrimEndOfPadded(s: string, after: string)
    requires IsBlank(after) && (s != [] ==> !IsWhitespace(s[|s| - 1]))
    ensures TrimEnd(s + after) == s
  {
    if after == [] {
      assert s + after == s;
    } else {
      TrimEndOfPadded(s, after[..|after| - 1]);
      assert (s + after)[..|s + after| - 1] == s + after[..|after| - 1];
    }
  }

  lemma {:induction false} TrimStartOfBlank(s: string)
    requires IsBlank(s)
    ensures TrimStart(s) == []
  {
    TrimStartOfPadded(s, []);
    assert s + [] == s;
  }

  lemma {:induction false} StartOfTrim(s: string) returns (before: string)
    ensures IsBlank(before) && s == before + TrimStart(s)
  {
    before := [];
    if s != [] && IsWhitespace(s[0]) {
      var rest := StartOfTrim(s[1..]);
      before := [s[0]] + rest;
    }
  }

  lemma {:induction false} EndOfTrim(s: string) returns (after: string)
    ensures IsBlank(after) && s == TrimEnd(s) + after
  {
    after := [];
    if s != [] && IsWhitespace(s[|s| - 1]) {
      var rest := EndOfTrim(s[..|s| - 1]);
      after := rest + [s[|s| - 1]];
    }
  }

  /** Every text is its trimmed self with whitespace around it. */
  lemma TrimIsPadded(part: string)
    ensures Pads(part, Trim(part))
  {
    var before := StartOfTrim(part);
    var after := EndOfTrim(TrimStart(part));
    assert part == before + Trim(part) + after;
  }

  /** Trimming takes away the surrounding whitespace, all of it and nothing else. */
  lemma TrimOfPadded(part: string, core: string)
    requires Pads(part, core)
    ensures Trim(part) == core
  {
    var before, after :| IsBlank(before) && IsBlank(after) && part == before + core + after;
    if core == [] {
      assert part == before + after;
      TrimStartOfBlank(part);
    } else {
      assert part == before + (core + after);
      TrimStartOfPadded(before, core + after);
      TrimEndOfPadded(core, after);
    }
  }

  function NonEmpty(parts: seq<string>): seq<string> {
    if parts == [] then [] else (if parts[0] == [] then [] else [parts[0]]) + NonEmpty(parts[1..])
  }

  lemma {:induction false} KeepsCores(parts: seq<string>, cores: seq<string>)
    requires |parts| == |cores| && forall i | 0 <= i < |parts| :: Pads(parts[i], cores[i])
    ensures KeepNonEmpty(parts) == NonEmpty(cores)
  {
    if parts == [] {
    } else {
      TrimOfPadded(parts[0], cores[0]);
      KeepsCores(parts[1..], cores[1..]);
    }
  }

  /** Whatever is written between the commas, padded as it may be: its cores are loaded, in order,
      without the empty ones; and nothing but an unset or all-blank value means no allowlist. */
  lemma PaddedJoinThenLoad(parts: seq<string>, cores: seq<string>)
    requires parts != [] && forall p | p in parts :: ',' !in p
    requires |parts| == |cores| && forall i | 0 <= i < |parts| :: Pads(parts[i], cores[i])
    ensures LoadAllowedPrefixes(None) == None
    ensures LoadAllowedPrefixes(Some(Join(parts, ',')))
            == if NonEmpty(cores) == [] then None else Some(NonEmpty(cores))
  {
    SplitOfJoin(parts, ',');
    KeepsCores(parts, cores);
  }

  /** Any nonempty list of clean prefixes can be configured, and is configured by joining it. */
  lemma JoinThenLoad(prefixes: seq<string>)
    requires prefixes != [] && forall p | p in prefixes :: CleanPrefix(p)
    ensures LoadAllowedPrefixes(Some(Join(prefixes, ','))) == Some(prefixes)
  {
    SplitOfJoin(prefixes, ',');
    KeepsCleanParts(prefixes);
  }

  /** And nothing else can: whatever text is configured, the prefixes loaded are clean, and
      joining them gives a text that loads the same. */
  lemma {:induction false} LoadIsNormalForm(text: string)
    ensures LoadAllowedPrefixes(Some(text)).Some? ==>
              var prefixes := LoadAllowedPrefixes(Some(text)).value;
              && prefixes != []
              && (forall p | p in prefixes :: CleanPrefix(p))
              && LoadAllowedPrefixes(Some(Join(prefixes, ','))) == Some(prefixes)
  {
    var loaded := LoadAllowedPrefixes(Some(text));
    if loaded.Some? {
      SplitPartsArePlain(text, ',');
      KeptPartsArePlain(Split(text, ','));
      JoinThenLoad(loaded.value);
    }
  }

  // ----- The check around normalization -----

  datatype UriError = PermissionDenied | InvalidUri

  predicate HasScheme(uri: string) {
    exists i | 0 <= i < |uri| - 2 :: uri[i] == ':' && uri[i + 1] == '/' && uri[i + 2] == '/'
  }

  /** The text contains "://". */
  lemma SchemeMeans(uri: string)
    ensures HasScheme(uri) <==> exists a, b :: uri == a + "://" + b
  {
    if i :| 0 <= i < |uri| - 2 && uri[i] == ':' && uri[i + 1] == '/' && uri[i + 2] == '/' {
      assert uri == uri[..i] + "://" + uri[i + 3..];
    }
    if a, b :| uri == a + "://" + b {
      assert uri[|a|] == ':' && uri[|a| + 1] == '/' && uri[|a| + 2] == '/';
    }
  }

  /** `ensured` is what the foreign normalization makes of `raw`: a URL or a parse error. */
  function NormalizeAndCheck(raw: string, ensured: Result<string, string>, allowlist: Option<seq<string>>):
    (r: Result<string, UriError>)
    ensures r == Err(PermissionDenied) <==>
            || (HasScheme(raw) && !IsAllowed(raw, allowlist))
            || (ensured.Ok? && !IsAllowed(ensured.value, allowlist))
    ensures r == Err(InvalidUri) <==> ensured.Err? && (HasScheme(raw) ==> IsAllowed(raw, allowlist))
    ensures r.Ok? ==> IsAllowed(r.value, allowlist) && ensured == Ok(r.value)
  {
    if HasScheme(raw) && !IsAllowed(raw, allowlist) then Err(PermissionDenied)
    else
      match ensured
      case Err(_) => Err(InvalidUri)
      case Ok(uri) => if IsAllowed(uri, allowlist) then Ok(uri) else Err(PermissionDenied)
  }
}
