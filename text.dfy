/** String helpers and the place-name sanitiser `sanitizeCityName`
    (src/WeatherMap.js:1379-1397). A name is split on runs of commas, full-width
    commas and white space, empty and repeated tokens are dropped (the first
    occurrence is kept), and the survivors are rejoined. */
module Text {

  /** JavaScript's `\s` class: WhiteSpace and LineTerminator characters. The
      same set is what `String.prototype.trim` removes, so `trim()` is the
      identity on every token `Split` produces. */
  predicate IsSpace(c: char) {
    c == ' ' || c == '\t' || c == '\n' || c == '\r' || c == '\U{0B}' || c == '\U{0C}' ||
    c == '\U{A0}' || c == '\U{1680}' || ('\U{2000}' <= c <= '\U{200A}') ||
    c == '\U{2028}' || c == '\U{2029}' || c == '\U{202F}' || c == '\U{205F}' ||
    c == '\U{3000}' || c == '\U{FEFF}'
  }

  /** The character class `[,，\s]` of the sanitiser's split pattern. */
  predicate IsSep(c: char) {
    c == ',' || c == '，' || IsSpace(c)
  }

  predicate SepFree(s: string) {
    forall k :: 0 <= k < |s| ==> !IsSep(s[k])
  }

  predicate AllSep(s: string) {
    forall k :: 0 <= k < |s| ==> IsSep(s[k])
  }

  /** Index of the first separator of `s`, or `|s|` when there is none. */
  function FirstSep(s: string): (i: nat)
    ensures i <= |s|
  {
    if s == [] then 0
    else if IsSep(s[0]) then 0
    else 1 + FirstSep(s[1..])
  }

  /** No separator comes before the first one, which is a separator. */
  lemma {:induction false} FirstSepSpec(s: string)
    ensures SepFree(s[..FirstSep(s)])
    ensures FirstSep(s) < |s| ==> IsSep(s[FirstSep(s)])
  {
    if s != [] && !IsSep(s[0]) {
      FirstSepSpec(s[1..]);
      var i := FirstSep(s);
      assert forall k :: 1 <= k < i ==> s[..i][k] == s[1..][..i - 1][k - 1];
    }
  }

  /** Length of the run of separators that `s` starts with. */
  function SepRun(s: string): (n: nat)
    ensures n <= |s|
  {
    if s == [] then 0
    else if !IsSep(s[0]) then 0
    else 1 + SepRun(s[1..])
  }

  /** The run is all separators and stops before a non-separator. */
  lemma {:induction false} SepRunSpec(s: string)
    ensures AllSep(s[..SepRun(s)])
    ensures SepRun(s) < |s| ==> !IsSep(s[SepRun(s)])
  {
    if s != [] && IsSep(s[0]) {
      SepRunSpec(s[1..]);
      var n := SepRun(s);
      assert forall k :: 1 <= k < n ==> s[..n][k] == s[1..][..n - 1][k - 1];
    }
  }

  /** `s.split(/[,，\s]+/)`: the pieces between maximal runs of separators. A
      leading or trailing run yields an empty first or last piece, and the
      empty string splits into `[""]`. */
  function Split(s: string): (parts: seq<string>)
    ensures |parts| >= 1
    decreases |s|
  {
    var i := FirstSep(s);
    if i == |s| then
      assert s[..i] == s;
      [s]
    else
      var j := i + SepRun(s[i..]);
      [s[..i]] + Split(s[j..])
  }

  /** No piece of a split holds a separator. */
  lemma {:induction false} SplitPartsSepFree(s: string)
    ensures forall k :: 0 <= k < |Split(s)| ==> SepFree(Split(s)[k])
    decreases |s|
  {
    var i := FirstSep(s);
    FirstSepSpec(s);
    if i < |s| {
      var j := i + SepRun(s[i..]);
      var rest := Split(s[j..]);
      SplitPartsSepFree(s[j..]);
      SplitUnfold(s, i, j, s[..i], s[j..]);
      forall k | 1 <= k < |Split(s)| ensures SepFree(Split(s)[k]) {
        assert Split(s)[k] == rest[k - 1];
      }
    } else {
      assert s[..i] == s;
    }
  }

  /** `parts.join(sep)` */
  function Join(parts: seq<string>, sep: string): string {
    if |parts| == 0 then ""
    else if |parts| == 1 then parts[0]
    else parts[0] + sep + Join(parts[1..], sep)
  }

  /** `s.includes(c)` for a single character */
  predicate Contains(s: string, c: char) {
    exists k :: 0 <= k < |s| && s[k] == c
  }

  /** `s.startsWith(prefix)` */
  predicate StartsWith(s: string, prefix: string) {
    |prefix| <= |s| && s[..|prefix|] == prefix
  }

  /** `s.slice(from, to)` for non-negative bounds: both are clamped to the
      length. */
  function Slice(s: string, from: nat, to: nat): (r: string)
    ensures |r| <= |s|
    ensures from <= to <= |s| ==> r == s[from..to]
  {
    var hi := if to <= |s| then to else |s|;
    var lo := if from <= hi then from else hi;
    s[lo..hi]
  }

  /** Decimal rendering of a non-negative integer, as template literals print it. */
  function NatToString(n: nat): (r: string)
    ensures |r| >= 1
    ensures forall k :: 0 <= k < |r| ==> '0' <= r[k] <= '9'
  {
    var d := [(('0' as int) + n % 10) as char];
    if n < 10 then d else NatToString(n / 10) + d
  }

  function IntToString(n: int): (r: string)
    ensures |r| >= 1
  {
    if n < 0 then "-" + NatToString(-n) else NatToString(n)
  }

  // ---------------------------------------------------------------------------
  // The sanitiser
  // ---------------------------------------------------------------------------

  /** The tokens the loop keeps: a token is kept when it is non-empty and has
      not been kept before. Defined on prefixes, in the order the loop visits
      the parts. */
  function Dedup(parts: seq<string>): seq<string> {
    if parts == [] then []
    else
      var kept := Dedup(parts[..|parts| - 1]);
      var p := parts[|parts| - 1];
      if p == "" || p in kept then kept else kept + [p]
  }

  /** The separator the rejoin uses: `', '` when the name holds an ASCII comma,
      otherwise one space (a full-width comma alone does not count). */
  function Rejoiner(name: string): string {
    if Contains(name, ',') then ", " else " "
  }

  /** The value `sanitizeCityName(name)` returns. The empty string is falsy and
      comes back as it is; a name from which nothing was dropped also comes
      back unchanged. */
  function Sanitize(name: string): string {
    if name == "" then name
    else
      var parts := Split(name);
      var kept := Dedup(parts);
      if |kept| == |parts| then name else Join(kept, Rejoiner(name))
  }

  /** The loop of `sanitizeCityName`: `seen` is the set of kept tokens and
      `unique` their sequence. */
  method SanitizeCityName(name: string) returns (r: string)
    ensures r == Sanitize(name)
  {
    if name == "" {
      return name;
    }
    var parts := Split(name);
    var unique: seq<string> := [];
    var seen: set<string> := {};
    var i := 0;
    while i < |parts|
      invariant 0 <= i <= |parts|
      invariant unique == Dedup(parts[..i])
      invariant forall p :: p in seen <==> p in unique
    {
      // `p.trim()` is the identity here: parts contain no white space.
      var p := parts[i];
      assert parts[..i + 1][..i] == parts[..i];
      if p != "" && p !in seen {
        seen := seen + {p};
        unique := unique + [p];
      }
      i := i + 1;
    }
    assert parts[..|parts|] == parts;
    if |unique| == |parts| {
      return name;
    }
    r := Join(unique, Rejoiner(name));
  }

  // ---------------------------------------------------------------------------
  // What the sanitiser promises
  // ---------------------------------------------------------------------------

  predicate Distinct(ts: seq<string>) {
    forall i, j :: 0 <= i < j < |ts| ==> ts[i] != ts[j]
  }

  predicate NonEmptyTokens(ts: seq<string>) {
    forall k :: 0 <= k < |ts| ==> ts[k] != ""
  }

  /** Index of the first occurrence of `t` in `ts` (`|ts|` when absent). */
  function FirstIndex(ts: seq<string>, t: string): (i: nat)
    ensures i <= |ts|
    ensures i < |ts| ==> ts[i] == t
    ensures forall k :: 0 <= k < i ==> ts[k] != t
  {
    if ts == [] then 0
    else if ts[0] == t then 0
    else 1 + FirstIndex(ts[1..], t)
  }

  /** The kept tokens are non-empty and pairwise distinct, and they are
      exactly the non-empty tokens of the input. */
  lemma {:induction false} DedupMembers(parts: seq<string>)
    ensures NonEmptyTokens(Dedup(parts)) && Distinct(Dedup(parts))
    ensures forall t :: t in Dedup(parts) <==> t in parts && t != ""
  {
    if parts != [] {
      var init := parts[..|parts| - 1];
      var p := parts[|parts| - 1];
      DedupMembers(init);
      var kept := Dedup(init);
      var r := Dedup(parts);
      assert parts == init + [p];
      assert forall t :: t in parts <==> t in init || t == p;
      if p != "" && p !in kept {
        assert r == kept + [p];
        forall i, j | 0 <= i < j < |r| ensures r[i] != r[j] {
          assert r[i] == kept[i];
          if j < |kept| {
            assert r[j] == kept[j];
          }
        }
      }
    }
  }

  /** The kept tokens appear in the order of their first occurrences. */
  lemma {:induction false} DedupKeepsOrder(parts: seq<string>)
    ensures forall i, j :: 0 <= i < j < |Dedup(parts)| ==>
              FirstIndex(parts, Dedup(parts)[i]) < FirstIndex(parts, Dedup(parts)[j])
  {
    if parts != [] {
      var init := parts[..|parts| - 1];
      var p := parts[|parts| - 1];
      DedupKeepsOrder(init);
      DedupMembers(init);
      var kept := Dedup(init);
      var r := Dedup(parts);
      assert parts == init + [p];
      forall t | t in init
        ensures FirstIndex(parts, t) == FirstIndex(init, t) < |init|
      {
        FirstIndexOfPrefix(init, p, t);
      }
      if p == "" || p in kept {
        assert r == kept;
      } else {
        assert r == kept + [p];
        assert p !in init;
        FirstIndexOfPrefix(init, p, p);
        forall i, j | 0 <= i < j < |r|
          ensures FirstIndex(parts, r[i]) < FirstIndex(parts, r[j])
        {
          assert r[i] == kept[i] && r[i] in init;
          if j < |kept| {
            assert r[j] == kept[j];
          } else {
            assert r[j] == p;
          }
        }
      }
    }
  }

  /** The kept tokens are non-empty and pairwise distinct, they are exactly the
      non-empty tokens of the input, and they appear in the order of their
      first occurrences. */
  lemma DedupKeepsFirstOccurrences(parts: seq<string>)
    ensures NonEmptyTokens(Dedup(parts)) && Distinct(Dedup(parts))
    ensures forall t :: t in Dedup(parts) <==> t in parts && t != ""
    ensures forall i, j :: 0 <= i < j < |Dedup(parts)| ==>
              FirstIndex(parts, Dedup(parts)[i]) < FirstIndex(parts, Dedup(parts)[j])
    ensures |Dedup(parts)| <= |parts|
  {
    DedupMembers(parts);
    DedupKeepsOrder(parts);
    DedupShorter(parts);
  }

  lemma {:induction false} FirstIndexOfPrefix(init: seq<string>, p: string, t: string)
    requires t in init || t == p
    ensures FirstIndex(init + [p], t) == FirstIndex(init, t)
  {
    if init != [] {
      assert (init + [p])[1..] == init[1..] + [p];
      if init[0] != t {
        FirstIndexOfPrefix(init[1..], p, t);
      }
    }
  }

  lemma {:induction false} DedupShorter(parts: seq<string>)
    ensures |Dedup(parts)| <= |parts|
  {
    if parts != [] {
      DedupShorter(parts[..|parts| - 1]);
    }
  }

  lemma {:induction false} DedupFullIsIdentity(parts: seq<string>)
    ensures |Dedup(parts)| == |parts| ==> Dedup(parts) == parts
  {
    if parts != [] {
      var init := parts[..|parts| - 1];
      DedupShorter(init);
      DedupFullIsIdentity(init);
      assert parts == init + [parts[|parts| - 1]];
    }
  }

  lemma {:induction false} DedupOfCleanIsIdentity(parts: seq<string>)
    requires NonEmptyTokens(parts) && Distinct(parts)
    ensures Dedup(parts) == parts
  {
    if parts != [] {
      var init := parts[..|parts| - 1];
      var p := parts[|parts| - 1];
      assert parts == init + [p];
      assert forall k :: 0 <= k < |init| ==> init[k] == parts[k];
      DedupOfCleanIsIdentity(init);
      assert p !in init;
    }
  }

  /** Splitting drops nothing exactly when every part is non-empty and no part
      repeats; then the kept tokens are the parts themselves. */
  lemma DedupKeepsAllIff(parts: seq<string>)
    ensures |Dedup(parts)| == |parts| <==> NonEmptyTokens(parts) && Distinct(parts)
    ensures NonEmptyTokens(parts) && Distinct(parts) ==> Dedup(parts) == parts
  {
    DedupKeepsFirstOccurrences(parts);
    DedupFullIsIdentity(parts);
    if NonEmptyTokens(parts) && Distinct(parts) {
      DedupOfCleanIsIdentity(parts);
    }
  }

  lemma FirstSepOfConcat(a: string, b: string)
    requires SepFree(a)
    requires b != [] && IsSep(b[0])
    ensures FirstSep(a + b) == |a|
  {
    var s := a + b;
    var i := FirstSep(s);
    FirstSepSpec(s);
    assert forall k :: 0 <= k < |a| ==> s[k] == a[k];
    assert s[|a|] == b[0];
    assert forall k :: 0 <= k < i ==> s[..i][k] == s[k];
  }

  lemma {:induction false} FirstSepOfSepFree(a: string)
    requires SepFree(a)
    ensures FirstSep(a) == |a|
  {
    if a != [] {
      assert SepFree(a[1..]) by {
        assert forall k :: 0 <= k < |a| - 1 ==> a[1..][k] == a[k + 1];
      }
      FirstSepOfSepFree(a[1..]);
    }
  }

  lemma SepRunOfConcat(a: string, b: string)
    requires AllSep(a)
    requires b != [] && !IsSep(b[0])
    ensures SepRun(a + b) == |a|
  {
    var s := a + b;
    var n := SepRun(s);
    SepRunSpec(s);
    assert forall k :: 0 <= k < |a| ==> s[k] == a[k];
    assert s[|a|] == b[0];
    assert forall k :: 0 <= k < n ==> s[..n][k] == s[k];
  }

  lemma {:induction false} JoinStartsWithFirst(parts: seq<string>, sep: string)
    requires |parts| >= 1 && parts[0] != ""
    ensures Join(parts, sep) != "" && Join(parts, sep)[0] == parts[0][0]
  {
  }

  /** A token, a separator run and a text starting with a non-separator
      split into the token and the pieces of that text. */
  lemma SplitAfterToken(t: string, sep: string, rest: string)
    requires SepFree(t) && sep != "" && AllSep(sep)
    requires rest != "" && !IsSep(rest[0])
    ensures Split(t + (sep + rest)) == [t] + Split(rest)
  {
    var u := sep + rest;
    var s := t + u;
    FirstSepOfConcat(t, u);
    ConcatHalves(t, u);
    SepRunOfConcat(sep, rest);
    ConcatHalves(sep, rest);
    assert s[|t| + |sep|..] == rest by {
      assert s[|t| + |sep|..] == u[|sep|..];
    }
    SplitUnfold(s, |t|, |t| + |sep|, t, rest);
  }

  /** One step of `Split`: the piece before the first separator run, then
      the pieces after it. */
  lemma SplitUnfold(s: string, i: nat, j: nat, first: string, rest: string)
    requires i == FirstSep(s) && i < |s| && j == i + SepRun(s[i..])
    requires s[..i] == first && s[j..] == rest
    ensures Split(s) == [first] + Split(rest)
  {
  }

  lemma ConcatHalves(a: string, b: string)
    ensures (a + b)[..|a|] == a && (a + b)[|a|..] == b
  {
  }

  /** Splitting a join of clean tokens on a separator run gives the tokens back. */
  lemma {:induction false} SplitJoin(parts: seq<string>, sep: string)
    requires |parts| >= 1
    requires NonEmptyTokens(parts)
    requires forall k :: 0 <= k < |parts| ==> SepFree(parts[k])
    requires sep != "" && AllSep(sep)
    ensures Split(Join(parts, sep)) == parts
  {
    if |parts| == 1 {
      FirstSepOfSepFree(parts[0]);
      assert parts[0][..|parts[0]|] == parts[0];
    } else {
      var rest := Join(parts[1..], sep);
      assert Join(parts, sep) == parts[0] + (sep + rest);
      JoinStartsWithFirst(parts[1..], sep);
      SplitAfterToken(parts[0], sep, rest);
      SplitJoin(parts[1..], sep);
      assert parts == [parts[0]] + parts[1..];
    }
  }

  lemma RejoinerIsSeparatorRun(name: string)
    ensures Rejoiner(name) != "" && AllSep(Rejoiner(name))
  {
  }

  /** A name repeated after a comma ("Tokyo, Tokyo") loses its repeat. */
  lemma SanitizeDropsRepeat(t: string)
    requires t != "" && SepFree(t)
    ensures Sanitize(t + ", " + t) == t
  {
    assert Join([t, t], ", ") == t + ", " + t;
    SplitJoin([t, t], ", ");
    assert [t, t][..1] == [t];
    assert Dedup([t]) == [t];
    assert (t + ", " + t)[|t|] == ',';
  }

  /** Two different names ("Shibuya, Tokyo") come back unchanged. */
  lemma SanitizeKeepsDistinct(s: string, t: string)
    requires s != "" && SepFree(s) && t != "" && SepFree(t) && s != t
    ensures Sanitize(s + ", " + t) == s + ", " + t
  {
    assert Join([s, t], ", ") == s + ", " + t;
    SplitJoin([s, t], ", ");
    assert [s, t][..1] == [s];
    assert Dedup([s]) == [s];
  }

  /** A non-empty name comes back unchanged exactly when splitting it yields no
      empty and no repeated token. */
  lemma SanitizeUnchangedIff(name: string)
    requires name != ""
    ensures Sanitize(name) == name <==> NonEmptyTokens(Split(name)) && Distinct(Split(name))
  {
    var parts := Split(name);
    var kept := Dedup(parts);
    DedupKeepsAllIff(parts);
    DedupKeepsFirstOccurrences(parts);
    if |kept| != |parts| {
      RejoinerIsSeparatorRun(name);
      if kept == [] {
        assert Join(kept, Rejoiner(name)) == "";
      } else {
        SplitPartsSepFree(name);
        forall k | 0 <= k < |kept| ensures SepFree(kept[k]) {
          assert kept[k] in parts;
        }
        SplitJoin(kept, Rejoiner(name));
      }
    }
  }

  /** The tokens of the result are the first occurrences of the non-empty
      tokens of the input (when there is at least one). */
  lemma SanitizeTokens(name: string)
    requires name != "" && Dedup(Split(name)) != []
    ensures Split(Sanitize(name)) == Dedup(Split(name))
  {
    var parts := Split(name);
    var kept := Dedup(parts);
    DedupKeepsAllIff(parts);
    DedupKeepsFirstOccurrences(parts);
    if |kept| != |parts| {
      RejoinerIsSeparatorRun(name);
      SplitPartsSepFree(name);
      forall k | 0 <= k < |kept| ensures SepFree(kept[k]) {
        assert kept[k] in parts;
      }
      SplitJoin(kept, Rejoiner(name));
    }
  }

  /** Sanitising twice is sanitising once. */
  lemma SanitizeIdempotent(name: string)
    ensures Sanitize(Sanitize(name)) == Sanitize(name)
  {
    if name != "" {
      var parts := Split(name);
      var kept := Dedup(parts);
      if |kept| != |parts| && kept != [] {
        var r := Sanitize(name);
        SanitizeTokens(name);
        DedupKeepsFirstOccurrences(parts);
        DedupKeepsAllIff(kept);
        JoinStartsWithFirst(kept, Rejoiner(name));
        assert r != "";
        assert Split(r) == kept && Dedup(kept) == kept;
      }
    }
  }
}
