/**
 Paths as view manifests have them (views.rs, viewsnap.rs): UTF-8 text cut at
 slashes, sanitized into components that no file system reads as anything else.
 */
module ViewPaths {
  import opened Wrappers
  import opened Bytes

  type Text = seq<byte>

  const SPACE: byte := 0x20
  const DASH: byte := 0x2D
  const DOT: byte := 0x2E
  const SEPARATOR: byte := 0x2F
  const BACKSLASH: byte := 0x5C
  const UNDERSCORE: byte := 0x5F

  // ---- Cutting and joining ----

  /** One byte put in front of the pieces of a text. */
  function Attach(head: byte, at: byte, pieces: seq<Text>): seq<Text>
    requires pieces != []
  {
    if head == at then [[]] + pieces else [[head] + pieces[0]] + pieces[1..]
  }

  /** Rust's `split`: the pieces between the separators, possibly empty. */
  function Split(s: Text, at: byte): (r: seq<Text>)
    ensures r != [] && forall c :: c in r ==> at !in c
  {
    if s == [] then [[]]
    else
      var rest := Split(s[1..], at);
      assert rest[0] in rest;
      Attach(s[0], at, rest)
  }

  function Join(parts: seq<Text>, at: byte): Text
    requires parts != []
  {
    if |parts| == 1 then parts[0] else parts[0] + [at] + Join(parts[1..], at)
  }

  lemma {:induction false} JoinSplit(s: Text, at: byte)
    ensures Join(Split(s, at), at) == s
  {
    if s != [] {
      JoinSplit(s[1..], at);
      var rest, all := Split(s[1..], at), Split(s, at);
      assert s == [s[0]] + s[1..];
      if s[0] == at {
        assert all[1..] == rest;
      } else {
        assert all[1..] == rest[1..];
      }
    }
  }

  /** Around one separator, splitting takes the two sides apart. */
  lemma {:induction false} SplitAround(a: Text, b: Text, at: byte)
    ensures Split(a + [at] + b, at) == Split(a, at) + Split(b, at)
  {
    var s := a + [at] + b;
    if a == [] {
      assert s[0] == at && s[1..] == b;
      SplitStep(s, at);
    } else {
      assert s[0] == a[0] && s[1..] == a[1..] + [at] + b;
      SplitAround(a[1..], b, at);
      hide Split;
      SplitStep(s, at);
      SplitStep(a, at);
      Attached(a[0], at, Split(a[1..], at), Split(b, at));
    }
  }

  lemma Attached(head: byte, at: byte, x: seq<Text>, y: seq<Text>)
    requires x != []
    ensures Attach(head, at, x + y) == Attach(head, at, x) + y
  {
    if head == at {
      assert [[]] + (x + y) == [[]] + x + y;
    } else {
      assert (x + y)[0] == x[0] && (x + y)[1..] == x[1..] + y;
      assert [[head] + x[0]] + (x[1..] + y) == [[head] + x[0]] + x[1..] + y;
    }
  }

  lemma SplitStep(s: Text, at: byte)
    requires s != []
    ensures Split(s, at) == Attach(s[0], at, Split(s[1..], at))
  {
  }

  lemma {:induction false} SplitWhole(c: Text, at: byte)
    requires at !in c
    ensures Split(c, at) == [c]
  {
    if c != [] {
      assert forall b :: b in c[1..] ==> b in c;
      SplitWhole(c[1..], at);
      assert c == [c[0]] + c[1..];
    }
  }

  lemma {:induction false} SplitJoin(parts: seq<Text>, at: byte)
    requires parts != [] && forall c :: c in parts ==> at !in c
    ensures Split(Join(parts, at), at) == parts
  {
    SplitWhole(parts[0], at);
    if |parts| > 1 {
      assert forall c :: c in parts[1..] ==> c in parts;
      SplitJoin(parts[1..], at);
      SplitAround(parts[0], Join(parts[1..], at), at);
    }
  }

  /** Rust's `rsplit_once`: the text on both sides of the last separator. */
  function RSplitOnce(s: Text, at: byte): (r: Option<(Text, Text)>)
    ensures r.None? <==> at !in s
    ensures r.Some? ==> s == r.value.0 + [at] + r.value.1 && at !in r.value.1
  {
    if s == [] then None
    else
      var (init, last) := (s[..|s| - 1], s[|s| - 1]);
      assert s == init + [last];
      if last == at then Some((init, []))
      else
        var rest := RSplitOnce(init, at);
        if rest.None? then None else Some((rest.value.0, rest.value.1 + [last]))
  }

  // ---- Canonical paths ----

  predicate IsDots(c: Text) {
    c == [DOT] || c == [DOT, DOT]
  }

  /** A name for one file or directory. */
  predicate GoodComponent(c: Text) {
    c != [] && !IsDots(c) && 0 !in c && SEPARATOR !in c
  }

  /** `path_is_canonical`: relative, no empty, `.` or `..` components, no NUL. */
  predicate IsCanonical(path: Text) {
    path != [] && 0 !in path && forall c :: c in Split(path, SEPARATOR) ==> c != [] && !IsDots(c)
  }

  lemma {:induction false} SplitBytes(s: Text, at: byte, b: byte)
    ensures b in s <==> (b == at && |Split(s, at)| > 1) || exists c :: c in Split(s, at) && b in c
  {
    if s != [] {
      SplitBytes(s[1..], at, b);
      var rest, all := Split(s[1..], at), Split(s, at);
      assert s == [s[0]] + s[1..];
      if s[0] == at {
        assert forall c :: c in all <==> c == [] || c in rest;
      } else {
        assert forall c :: c in all <==> c == [s[0]] + rest[0] || c in rest[1..];
        assert forall c :: c in rest <==> c == rest[0] || c in rest[1..];
        assert b == s[0] ==> b in all[0];
        assert b in rest[0] ==> b in all[0];
      }
    }
  }

  /** A path is canonical exactly when its components are good names. */
  lemma CanonicalParts(path: Text)
    ensures IsCanonical(path) <==> forall c :: c in Split(path, SEPARATOR) ==> GoodComponent(c)
  {
    SplitBytes(path, SEPARATOR, 0);
    if path == [] {
      assert [] in Split(path, SEPARATOR);
    }
  }

  lemma JoinCanonical(parts: seq<Text>)
    requires parts != [] && forall c :: c in parts ==> GoodComponent(c)
    ensures IsCanonical(Join(parts, SEPARATOR))
  {
    SplitJoin(parts, SEPARATOR);
    CanonicalParts(Join(parts, SEPARATOR));
  }

  // ---- UTF-8 survives the cutting ----

  lemma StepInside(s: seq<byte>)
    requires s != []
    ensures forall k :: 0 < k < Utf8Step(s) ==> Between(0x80, s[k], 0xBF)
  {
  }

  /** One character is read from its own bytes alone. */
  lemma StepAlone(s: seq<byte>, t: seq<byte>)
    requires s != [] && 0 < Utf8Step(s) <= |t| && t[..Utf8Step(s)] == s[..Utf8Step(s)]
    ensures Utf8Step(t) == Utf8Step(s)
  {
    var n := Utf8Step(s);
    assert forall k :: 0 <= k < n ==> t[k] == t[..n][k] == s[..n][k] == s[k];
  }

  lemma {:induction false} ConcatUtf8(a: seq<byte>, b: seq<byte>)
    requires ValidUtf8(a) && ValidUtf8(b)
    ensures ValidUtf8(a + b)
    decreases |a|
  {
    hide Utf8Step;
    if a == [] {
      assert a + b == b;
    } else {
      var n := Utf8Step(a);
      StepAlone(a, a + b);
      ConcatUtf8(a[n..], b);
      assert (a + b)[n..] == a[n..] + b;
    }
  }

  /** Rust's `is_char_boundary`. */
  predicate IsBoundary(s: seq<byte>, i: nat) {
    i == 0 || i == |s| || (i < |s| && !Between(0x80, s[i], 0xBF))
  }

  /** Valid text cut at a character boundary gives two valid texts. */
  lemma {:induction false} BoundaryUtf8(s: seq<byte>, i: nat)
    requires ValidUtf8(s) && i <= |s| && IsBoundary(s, i)
    ensures ValidUtf8(s[..i]) && ValidUtf8(s[i..])
    decreases |s|
  {
    hide Utf8Step;
    if 0 < i < |s| {
      var n := Utf8Step(s);
      StepInside(s);
      assert n <= i;
      BoundaryUtf8(s[n..], i - n);
      assert s[n..][..i - n] == s[n..i] && s[n..][i - n..] == s[i..];
      StepAlone(s, s[..i]);
      assert s[..i][n..] == s[n..i];
    } else {
      assert s[..|s|] == s && s[0..] == s;
    }
  }

  /** Text on the two sides of an ASCII byte is valid. */
  lemma AsciiCuts(a: seq<byte>, b: byte, c: seq<byte>)
    requires b < 0x80 && ValidUtf8(a + [b] + c)
    ensures ValidUtf8(a) && ValidUtf8(c)
  {
    var s := a + [b] + c;
    BoundaryUtf8(s, |a|);
    assert s[..|a|] == a && s[|a|..] == [b] + c;
    assert ([b] + c)[1..] == c;
  }

  lemma {:induction false} SplitUtf8(s: seq<byte>, at: byte)
    requires at < 0x80 && ValidUtf8(s)
    ensures forall c :: c in Split(s, at) ==> ValidUtf8(c)
    decreases |s|
  {
    var parts := Split(s, at);
    JoinSplit(s, at);
    if |parts| > 1 {
      var rest := Join(parts[1..], at);
      AsciiCuts(parts[0], at, rest);
      assert forall c :: c in parts[1..] ==> c in parts;
      SplitJoin(parts[1..], at);
      SplitUtf8(rest, at);
    }
  }

  lemma AsciiUtf8(b: byte)
    requires b < 0x80
    ensures ValidUtf8([b])
  {
    assert [b][1..] == [];
  }

  lemma {:induction false} JoinUtf8(parts: seq<Text>, at: byte)
    requires at < 0x80 && parts != [] && forall c :: c in parts ==> ValidUtf8(c)
    ensures ValidUtf8(Join(parts, at))
  {
    AsciiUtf8(at);
    hide ValidUtf8;
    if |parts| > 1 {
      JoinUtf8(parts[1..], at);
      ConcatUtf8([at], Join(parts[1..], at));
      ConcatUtf8(parts[0], [at] + Join(parts[1..], at));
      assert parts[0] + ([at] + Join(parts[1..], at)) == Join(parts, at);
    }
  }

  /** `chars().map(..)` for a mapping that only touches ASCII characters. */
  function MapBytes(s: Text, f: byte -> byte): (r: Text)
    ensures |r| == |s| && forall i :: 0 <= i < |s| ==> r[i] == f(s[i])
  {
    seq(|s|, i requires 0 <= i < |s| => f(s[i]))
  }

  lemma {:induction false} MapUtf8(s: Text, f: byte -> byte)
    requires ValidUtf8(s) && forall b: byte :: if b < 0x80 then f(b) < 0x80 else f(b) == b
    ensures ValidUtf8(MapBytes(s, f))
    decreases |s|
  {
    if s != [] {
      var n := Utf8Step(s);
      MapUtf8(s[n..], f);
      assert MapBytes(s, f)[n..] == MapBytes(s[n..], f);
      assert Utf8Step(MapBytes(s, f)) == n;
    }
  }

  // ---- Sanitizers (views.rs) ----

  function ScrubSeparators(b: byte): byte {
    if b == SEPARATOR || b == BACKSLASH || b == 0 then UNDERSCORE else b
  }

  /** `sanitize_component`: any text becomes one good name, and a good name without backslashes stays itself. */
  function SanitizeComponent(s: Text): (r: Text)
    ensures GoodComponent(r)
    ensures GoodComponent(s) && BACKSLASH !in s ==> r == s
    ensures ValidUtf8(s) ==> ValidUtf8(r)
  {
    var cleaned := MapBytes(s, ScrubSeparators);
    assert ValidUtf8(s) ==> ValidUtf8(cleaned) by {
      if ValidUtf8(s) {
        MapUtf8(s, ScrubSeparators);
      }
    }
    if cleaned == [] || IsDots(cleaned) then [UNDERSCORE] else cleaned
  }

  function Slashed(b: byte): byte {
    if b == BACKSLASH then SEPARATOR else b
  }

  function SanitizeParts(parts: seq<Text>): (r: seq<Text>)
    ensures forall c :: c in r ==> GoodComponent(c)
    ensures (forall c :: c in parts ==> ValidUtf8(c)) ==> forall c :: c in r ==> ValidUtf8(c)
    ensures (forall c :: c in parts ==> GoodComponent(c) && BACKSLASH !in c) ==> r == parts
  {
    if parts == [] then []
    else
      assert parts[0] in parts && parts == [parts[0]] + parts[1..];
      assert forall c :: c in parts[1..] ==> c in parts;
      (if parts[0] == [] then [] else [SanitizeComponent(parts[0])]) + SanitizeParts(parts[1..])
  }

  /** `sanitize_name`: any text becomes a canonical path; both kinds of slash separate. */
  function SanitizeName(s: Text): (r: Text)
  {
    var parts := SanitizeParts(Split(MapBytes(s, Slashed), SEPARATOR));
    if parts == [] then [UNDERSCORE] else Join(parts, SEPARATOR)
  }

  /** Whatever goes in, the sanitized name is a canonical path; canonical paths without backslashes pass unchanged. */
  lemma SanitizedIsCanonical(s: Text)
    ensures IsCanonical(SanitizeName(s))
    ensures ValidUtf8(s) ==> ValidUtf8(SanitizeName(s))
    ensures IsCanonical(s) && BACKSLASH !in s ==> SanitizeName(s) == s
  {
    var slashed := MapBytes(s, Slashed);
    var parts := SanitizeParts(Split(slashed, SEPARATOR));
    if parts == [] {
      assert IsCanonical([UNDERSCORE]) by {
        SplitWhole([UNDERSCORE], SEPARATOR);
      }
    } else {
      JoinCanonical(parts);
    }
    if ValidUtf8(s) {
      MapUtf8(s, Slashed);
      SplitUtf8(slashed, SEPARATOR);
      if parts != [] {
        JoinUtf8(parts, SEPARATOR);
      }
    }
    if IsCanonical(s) && BACKSLASH !in s {
      assert slashed == s;
      CanonicalParts(s);
      SplitBytes(s, SEPARATOR, BACKSLASH);
      JoinSplit(s, SEPARATOR);
    }
  }

  // ---- The template (views.rs) ----

  /** Rust's `str::replace`: every occurrence of `pat`, left to right, without overlap. */
  function Replace(s: Text, pat: Text, value: Text): Text
    requires pat != []
    decreases |s|
  {
    if s == [] then []
    else if pat <= s then value + Replace(s[|pat|..], pat, value)
    else [s[0]] + Replace(s[1..], pat, value)
  }

  predicate IsPlaceholder(pat: Text) {
    pat != [] && forall b :: b in pat ==> b < 0x80
  }

  /** Replacing an ASCII placeholder keeps text valid. */
  lemma {:induction false} ReplaceUtf8(s: Text, pat: Text, value: Text)
    requires ValidUtf8(s) && ValidUtf8(value) && IsPlaceholder(pat)
    ensures ValidUtf8(Replace(s, pat, value))
    decreases |s|
  {
    hide Utf8Step;
    if s != [] {
      if pat <= s {
        var n := |pat|;
        assert s == s[..n - 1] + [s[n - 1]] + s[n..] && s[n - 1] in pat;
        AsciiCuts(s[..n - 1], s[n - 1], s[n..]);
        ReplaceUtf8(s[n..], pat, value);
        ConcatUtf8(value, Replace(s[n..], pat, value));
      } else {
        var n := Utf8Step(s);
        StepInside(s);
        ReplaceWithin(s, pat, value, n);
        ReplaceUtf8(s[n..], pat, value);
        StepAlone(s, s[..n]);
        assert s[..n][n..] == [];
        ConcatUtf8(s[..n], Replace(s[n..], pat, value));
      }
    }
  }

  /** No placeholder starts inside a character. */
  lemma {:induction false} ReplaceWithin(s: Text, pat: Text, value: Text, n: nat)
    requires pat != [] && (forall b :: b in pat ==> b < 0x80) && 0 < n <= |s| && !(pat <= s)
    requires forall k :: 0 < k < n ==> s[k] >= 0x80
    ensures Replace(s, pat, value) == s[..n] + Replace(s[n..], pat, value)
    decreases n
  {
    if n == 1 {
      assert s[..1] == [s[0]];
    } else {
      assert s[1..][0] == s[1] && pat[0] in pat;
      ReplaceWithin(s[1..], pat, value, n - 1);
      assert s[1..][n - 1..] == s[n..] && [s[0]] + s[1..][..n - 1] == s[..n];
    }
  }
}
