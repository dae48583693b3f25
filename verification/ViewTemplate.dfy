/**
 What a view's template says: its placeholders, written as the documentation writes
 them, stand for the entry's name, the claim's name and the claim's letter, and when
 the text put in for them is left as it is.
 */
module ViewTemplate {
  import opened Wrappers
  import opened Bytes
  import opened Objects
  import opened ViewPaths
  import opened ViewProfiles
  import opened ViewLayout

  /** The bytes of a text in ASCII. */
  ghost function Ascii(s: string): (r: Text)
    ensures |r| == |s| && forall i :: 0 <= i < |r| ==> r[i] == AsciiOf(s[i])
  {
    if s == "" then [] else [AsciiOf(s[0])] + Ascii(s[1..])
  }

  ghost function AsciiOf(c: char): byte {
    if c as int < 0x80 then c as int else 0x3F
  }

  lemma PlaceholdersAre()
    ensures ENTRY == Ascii("{entry}") && NAME == Ascii("{name}") && ALPHA_BUCKET == Ascii("{alpha_bucket}")
  {
    EntryIs();
    NameIs();
    BucketIs();
    hide *;
  }

  lemma EntryIs()
    ensures ENTRY == Ascii("{entry}")
  {
    hide Ascii;
  }

  lemma NameIs()
    ensures NAME == Ascii("{name}")
  {
    hide Ascii;
  }

  lemma BucketIs()
    ensures ALPHA_BUCKET == Ascii("{alpha_bucket}")
  {
    hide Ascii;
  }

  /** A piece of a template. */
  datatype Token = Literal(text: Text) | EntryName | ClaimName | Letter

  /** The template a list of pieces is written as. */
  ghost function Written(tokens: seq<Token>): Text {
    if tokens == [] then []
    else
      (match tokens[0]
       case Literal(t) => t
       case EntryName => Ascii("{entry}")
       case ClaimName => Ascii("{name}")
       case Letter => Ascii("{alpha_bucket}")) + Written(tokens[1..])
  }

  /** The text it stands for, given the names. */
  ghost function Meant(tokens: seq<Token>, entry: Text, name: Text, letter: Text): Text {
    if tokens == [] then []
    else
      (match tokens[0]
       case Literal(t) => t
       case EntryName => entry
       case ClaimName => name
       case Letter => letter) + Meant(tokens[1..], entry, name, letter)
  }

  /** A brace opens placeholders only. */
  ghost predicate Plain(tokens: seq<Token>) {
    forall t :: t in tokens && t.Literal? ==> 0x7B !in t.text
  }

  /** No brace in the text starts the placeholder, nor could with more text behind it. */
  ghost predicate Spares(v: Text, pat: Text) {
    forall i :: 0 <= i < |v| && v[i] == 0x7B ==> !(pat <= v[i..]) && !(v[i..] <= pat)
  }

  // ---- Replacing ----

  /** Text that spares a placeholder passes. */
  lemma {:induction false} Passes(v: Text, s: Text, pat: Text, value: Text)
    requires IsPattern(pat) && Spares(v, pat)
    ensures Replace(v + s, pat, value) == v + Replace(s, pat, value)
    decreases |v|
  {
    hide Replace, Spares;
    if v == [] {
      assert [] + s == s && [] + Replace(s, pat, value) == Replace(s, pat, value);
    } else {
      SparesRest(v, s, pat);
      Passes(v[1..], s, pat, value);
      FrontOf(v, s);
      FrontOf(v, Replace(s, pat, value));
      ReplaceStep(v + s, pat, value);
    }
  }

  lemma FrontOf(v: Text, s: Text)
    requires v != []
    ensures v + s != [] && (v + s)[0] == v[0] && (v + s)[1..] == v[1..] + s && v + s == [v[0]] + (v[1..] + s)
  {
  }

  lemma SparesRest(v: Text, s: Text, pat: Text)
    requires v != [] && IsPattern(pat) && Spares(v, pat)
    ensures Spares(v[1..], pat) && !(pat <= v + s)
  {
    assert v[0..] == v;
    NeitherPrefix(v, s, pat);
    forall i | 0 <= i < |v| - 1 && v[1..][i] == 0x7B ensures !(pat <= v[1..][i..]) && !(v[1..][i..] <= pat) {
      assert v[1..][i..] == v[i + 1..] && v[i + 1] == 0x7B;
    }
  }

  lemma NeitherPrefix(v: Text, s: Text, pat: Text)
    ensures pat <= v + s ==> pat <= v || v <= pat
  {
    if pat <= v + s {
      if |pat| <= |v| {
        assert (v + s)[..|pat|] == v[..|pat|];
      } else {
        assert (v + s)[..|v|] == v && pat[..|v|] == (v + s)[..|v|];
      }
    }
  }

  ghost predicate IsPattern(pat: Text) {
    pat != [] && pat[0] == 0x7B
  }

  lemma ReplaceStep(s: Text, pat: Text, value: Text)
    requires s != [] && pat != []
    ensures Replace(s, pat, value) == if pat <= s then value + Replace(s[|pat|..], pat, value) else [s[0]] + Replace(s[1..], pat, value)
  {
  }

  lemma Hits(s: Text, pat: Text, value: Text)
    requires pat != []
    ensures Replace(pat + s, pat, value) == value + Replace(s, pat, value)
  {
    assert (pat + s)[|pat|..] == s;
  }

  lemma PlaceholdersSpare()
    ensures IsPattern(ENTRY) && IsPattern(NAME) && IsPattern(ALPHA_BUCKET)
    ensures Spares(NAME, ENTRY) && Spares(ALPHA_BUCKET, ENTRY) && Spares(ALPHA_BUCKET, NAME)
  {
    OneBrace();
    hide Spares;
    OtherSpares(NAME, ENTRY);
    OtherSpares(ALPHA_BUCKET, ENTRY);
    OtherSpares(ALPHA_BUCKET, NAME);
  }

  lemma OneBrace()
    ensures forall j :: 0 < j < |NAME| ==> NAME[j] != 0x7B
    ensures forall j :: 0 < j < |ALPHA_BUCKET| ==> ALPHA_BUCKET[j] != 0x7B
  {
  }

  lemma OtherSpares(v: Text, pat: Text)
    requires |v| > 1 && |pat| > 1 && v[1] != pat[1] && forall j :: 0 < j < |v| ==> v[j] != 0x7B
    ensures Spares(v, pat)
  {
    assert v[0..] == v;
  }

  /** Replacing every entry placeholder of a plain template. */
  lemma {:induction false} EntryStep(tokens: seq<Token>, entry: Text)
    requires Plain(tokens)
    ensures Replace(Meant(tokens, ENTRY, NAME, ALPHA_BUCKET), ENTRY, entry) == Meant(tokens, entry, NAME, ALPHA_BUCKET)
  {
    if tokens != [] {
      hide Replace, Spares;
      PlaceholdersSpare();
      PlainRest(tokens, ENTRY);
      EntryStep(tokens[1..], entry);
      var rest := Meant(tokens[1..], ENTRY, NAME, ALPHA_BUCKET);
      match tokens[0] {
        case EntryName => Hits(rest, ENTRY, entry);
        case Literal(t) => Passes(t, rest, ENTRY, entry);
        case ClaimName => Passes(NAME, rest, ENTRY, entry);
        case Letter => Passes(ALPHA_BUCKET, rest, ENTRY, entry);
      }
    }
  }

  lemma {:induction false} NameStep(tokens: seq<Token>, entry: Text, name: Text)
    requires Plain(tokens) && Spares(entry, NAME)
    ensures Replace(Meant(tokens, entry, NAME, ALPHA_BUCKET), NAME, name) == Meant(tokens, entry, name, ALPHA_BUCKET)
  {
    if tokens != [] {
      hide Replace, Spares;
      PlaceholdersSpare();
      PlainRest(tokens, NAME);
      NameStep(tokens[1..], entry, name);
      var rest := Meant(tokens[1..], entry, NAME, ALPHA_BUCKET);
      match tokens[0] {
        case EntryName => Passes(entry, rest, NAME, name);
        case Literal(t) => Passes(t, rest, NAME, name);
        case ClaimName => Hits(rest, NAME, name);
        case Letter => Passes(ALPHA_BUCKET, rest, NAME, name);
      }
    }
  }

  lemma {:induction false} LetterStep(tokens: seq<Token>, entry: Text, name: Text, letter: Text)
    requires Plain(tokens) && Spares(entry, ALPHA_BUCKET) && Spares(name, ALPHA_BUCKET)
    ensures Replace(Meant(tokens, entry, name, ALPHA_BUCKET), ALPHA_BUCKET, letter) == Meant(tokens, entry, name, letter)
  {
    if tokens != [] {
      hide Replace, Spares;
      PlaceholdersSpare();
      PlainRest(tokens, ALPHA_BUCKET);
      LetterStep(tokens[1..], entry, name, letter);
      var rest := Meant(tokens[1..], entry, name, ALPHA_BUCKET);
      match tokens[0] {
        case EntryName => Passes(entry, rest, ALPHA_BUCKET, letter);
        case Literal(t) => Passes(t, rest, ALPHA_BUCKET, letter);
        case ClaimName => Passes(name, rest, ALPHA_BUCKET, letter);
        case Letter => Hits(rest, ALPHA_BUCKET, letter);
      }
    }
  }

  lemma PlainRest(tokens: seq<Token>, pat: Text)
    requires tokens != [] && Plain(tokens)
    ensures Plain(tokens[1..]) && (tokens[0].Literal? ==> Spares(tokens[0].text, pat))
  {
    assert tokens[0] in tokens && forall t :: t in tokens[1..] ==> t in tokens;
  }

  lemma {:induction false} WrittenIs(tokens: seq<Token>)
    ensures Written(tokens) == Meant(tokens, ENTRY, NAME, ALPHA_BUCKET)
  {
    PlaceholdersAre();
    hide Ascii;
    if tokens != [] {
      WrittenIs(tokens[1..]);
    }
  }

  // ---- The template's meaning ----

  /**
   A template is read as its pieces: `{entry}` stands for the entry's name, `{name}` for
   the claim's path and `{alpha_bucket}` for the claim's letter, if no text put in is
   read as a placeholder by a later step.
   */
  lemma ExpandsTemplate(tokens: seq<Token>, pick: Pick)
    requires Plain(tokens)
    requires Spares(SanitizeComponent(pick.entry), NAME) && Spares(SanitizeComponent(pick.entry), ALPHA_BUCKET) && Spares(SanitizeName(pick.claim), ALPHA_BUCKET)
    ensures Expanded(pick, Written(tokens)) == Meant(tokens, SanitizeComponent(pick.entry), SanitizeName(pick.claim), AlphaBucket(pick.claim))
  {
    var entry, name, letter := SanitizeComponent(pick.entry), SanitizeName(pick.claim), AlphaBucket(pick.claim);
    hide *;
    WrittenIs(tokens);
    EntryStep(tokens, entry);
    NameStep(tokens, entry, name);
    LetterStep(tokens, entry, name, letter);
    ExpandedIs(pick, Written(tokens));
  }

  lemma ExpandedIs(pick: Pick, template: Text)
    ensures Expanded(pick, template)
         == Replace(Replace(Replace(template, ENTRY, SanitizeComponent(pick.entry)), NAME, SanitizeName(pick.claim)), ALPHA_BUCKET, AlphaBucket(pick.claim))
  {
  }

  /** An entry's name is left as it is, under every plain template and every claim without a brace, exactly when no brace in it could start a later placeholder. */
  lemma EntryLeftExactly(entry: Utf8)
    ensures (forall tokens: seq<Token>, pick: Pick :: Plain(tokens) && pick.entry == entry && 0x7B !in SanitizeName(pick.claim) ==> Leaves(tokens, pick))
            <==> Spares(SanitizeComponent(entry), NAME) && Spares(SanitizeComponent(entry), ALPHA_BUCKET)
  {
    hide Expanded, Meant, Written, SanitizeName, SanitizeComponent, Spares, AlphaBucket;
    var v := SanitizeComponent(entry);
    if Spares(v, NAME) && Spares(v, ALPHA_BUCKET) {
      forall tokens: seq<Token>, pick: Pick | Plain(tokens) && pick.entry == entry && 0x7B !in SanitizeName(pick.claim) ensures Leaves(tokens, pick) {
        NoBraceSpares(SanitizeName(pick.claim), ALPHA_BUCKET);
        ExpandsTemplate(tokens, pick);
      }
    } else {
      var pick := Pick(0, entry, LETTER_A, seq(32, _ => 0), 0);
      PlainClaim(pick);
      var tokens := EntryTaken(pick, if Spares(v, NAME) then ALPHA_BUCKET else NAME);
      assert Plain(tokens) && !Leaves(tokens, pick);
    }
  }

  /** The expansion is what the template means. */
  ghost predicate Leaves(tokens: seq<Token>, pick: Pick) {
    Expanded(pick, Written(tokens)) == Meant(tokens, SanitizeComponent(pick.entry), SanitizeName(pick.claim), AlphaBucket(pick.claim))
  }

  const LETTER_A: Text := [0x41]

  lemma PlainClaim(pick: Pick)
    requires pick.claim == LETTER_A
    ensures SanitizeName(pick.claim) == LETTER_A && AlphaBucket(pick.claim) == LETTER_A && ValidUtf8(LETTER_A)
  {
    AsciiUtf8(0x41);
    SplitWhole(LETTER_A, SEPARATOR);
    SanitizedIsCanonical(LETTER_A);
    assert RSplitOnce(LETTER_A, SEPARATOR).None?;
  }

  /** Otherwise a template takes it for a placeholder: the entry's name followed by what is missing of one. */
  lemma EntryTaken(pick: Pick, pat: Text) returns (tokens: seq<Token>)
    requires pick.claim == LETTER_A && pat in {NAME, ALPHA_BUCKET} && !Spares(SanitizeComponent(pick.entry), pat)
    ensures Plain(tokens) && !Leaves(tokens, pick)
  {
    hide Replace, SanitizeComponent, SanitizeName, AlphaBucket, Spares, Meant, Plain, Written, Expanded;
    PlainClaim(pick);
    var v := SanitizeComponent(pick.entry);
    OneBrace();
    var rest, i := Completes(v, pat);
    tokens := [EntryName, Literal(rest)];
    MeantOfTwo(EntryName, rest, v, LETTER_A, LETTER_A);
    MeantOfTwo(EntryName, rest, v, NAME, ALPHA_BUCKET);
    WrittenIs(tokens);
    EntryStep(tokens, v);
    ExpandedIs(pick, Written(tokens));
    var one := Replace(v + rest, NAME, LETTER_A);
    Shrinks(v + rest, NAME, LETTER_A, i);
    Shrinks(one, ALPHA_BUCKET, LETTER_A, 0);
    if pat == ALPHA_BUCKET {
      ShrinksOr(v + rest, i);
    }
  }

  /** The same for the claim's path, which only the letter's placeholder comes behind. */
  lemma ClaimLeftExactly(claim: Utf8)
    ensures (forall tokens: seq<Token>, pick: Pick :: Plain(tokens) && pick.claim == claim && 0x7B !in SanitizeComponent(pick.entry) ==> Leaves(tokens, pick))
            <==> Spares(SanitizeName(claim), ALPHA_BUCKET)
  {
    PlainEntry();
    hide Expanded, Meant, Written, SanitizeName, SanitizeComponent, Spares;
    var v := SanitizeName(claim);
    if Spares(v, ALPHA_BUCKET) {
      forall tokens: seq<Token>, pick: Pick | Plain(tokens) && pick.claim == claim && 0x7B !in SanitizeComponent(pick.entry) ensures Leaves(tokens, pick) {
        NoBraceSpares(SanitizeComponent(pick.entry), NAME);
        NoBraceSpares(SanitizeComponent(pick.entry), ALPHA_BUCKET);
        ExpandsTemplate(tokens, pick);
      }
    } else {
      var pick := Pick(0, LETTER_A, claim, seq(32, _ => 0), 0);
      var tokens := ClaimTaken(pick);
      assert Plain(tokens) && !Leaves(tokens, pick);
    }
  }

  lemma PlainEntry()
    ensures SanitizeComponent(LETTER_A) == LETTER_A && 0x7B !in LETTER_A && ValidUtf8(LETTER_A)
  {
    AsciiUtf8(0x41);
  }

  lemma NoBraceSpares(v: Text, pat: Text)
    requires 0x7B !in v
    ensures Spares(v, pat)
  {
  }

  lemma ClaimTaken(pick: Pick) returns (tokens: seq<Token>)
    requires pick.entry == LETTER_A && !Spares(SanitizeName(pick.claim), ALPHA_BUCKET)
    ensures Plain(tokens) && !Leaves(tokens, pick)
  {
    assert SanitizeComponent(pick.entry) == LETTER_A;
    assert |AlphaBucket(pick.claim)| == 1;
    assert Spares(LETTER_A, NAME);
    hide Replace, SanitizeComponent, SanitizeName, AlphaBucket, Spares, Meant, Plain, Written, Expanded;
    var v, letter := SanitizeName(pick.claim), AlphaBucket(pick.claim);
    OneBrace();
    var rest, i := Completes(v, ALPHA_BUCKET);
    tokens := [ClaimName, Literal(rest)];
    MeantOfTwo(ClaimName, rest, LETTER_A, v, letter);
    MeantOfTwo(ClaimName, rest, LETTER_A, v, ALPHA_BUCKET);
    WrittenIs(tokens);
    EntryStep(tokens, LETTER_A);
    NameStep(tokens, LETTER_A, v);
    ExpandedIs(pick, Written(tokens));
    Shrinks(v + rest, ALPHA_BUCKET, letter, i);
  }

  /** Text with a brace that could start the placeholder has the placeholder, with what is missing behind it. */
  lemma Completes(v: Text, pat: Text) returns (rest: Text, i: nat)
    requires !Spares(v, pat) && forall j :: 0 < j < |pat| ==> pat[j] != 0x7B
    ensures 0x7B !in rest && i <= |v + rest| && pat <= (v + rest)[i..]
  {
    var k :| 0 <= k < |v| && v[k] == 0x7B && (pat <= v[k..] || v[k..] <= pat);
    i := k;
    if pat <= v[k..] {
      rest := [];
      assert v + rest == v;
    } else {
      rest := pat[|v| - k..];
      assert (v + rest)[k..] == v[k..] + rest == pat;
    }
  }

  lemma MeantOfTwo(first: Token, rest: Text, entry: Text, name: Text, letter: Text)
    requires first in {EntryName, ClaimName} && 0x7B !in rest
    ensures Plain([first, Literal(rest)])
    ensures Meant([first, Literal(rest)], entry, name, letter) == (if first == EntryName then entry else name) + rest
  {
    var tokens := [first, Literal(rest)];
    assert tokens[1..] == [Literal(rest)] && [Literal(rest)][1..] == [];
    assert Meant([], entry, name, letter) == [] && rest + [] == rest;
  }

  /** One letter for a longer placeholder: never longer, and shorter where it stands. */
  lemma {:induction false} Shrinks(s: Text, pat: Text, value: Text, i: nat)
    requires 1 == |value| < |pat|
    ensures |Replace(s, pat, value)| <= |s|
    ensures i <= |s| && pat <= s[i..] ==> |Replace(s, pat, value)| < |s|
    decreases |s|
  {
    if s != [] {
      if pat <= s {
        Shrinks(s[|pat|..], pat, value, 0);
      } else {
        if i > 0 && i <= |s| {
          assert s[1..][i - 1..] == s[i..];
        }
        assert s[0..] == s;
        Shrinks(s[1..], pat, value, if i > 0 then i - 1 else 0);
      }
    }
  }

  /** Either the name step shortens the text, or it leaves it to the letter step. */
  lemma ShrinksOr(s: Text, i: nat)
    requires i <= |s| && ALPHA_BUCKET <= s[i..]
    ensures |Replace(Replace(s, NAME, LETTER_A), ALPHA_BUCKET, LETTER_A)| < |s|
  {
    var one := Replace(s, NAME, LETTER_A);
    ReplaceOrSame(s, NAME, LETTER_A);
    Shrinks(s, ALPHA_BUCKET, LETTER_A, i);
    Shrinks(one, ALPHA_BUCKET, LETTER_A, 0);
  }

  lemma {:induction false} ReplaceOrSame(s: Text, pat: Text, value: Text)
    requires 1 == |value| < |pat|
    ensures Replace(s, pat, value) == s || |Replace(s, pat, value)| < |s|
    decreases |s|
  {
    if s != [] {
      if pat <= s {
        Shrinks(s[|pat|..], pat, value, 0);
      } else {
        ReplaceOrSame(s[1..], pat, value);
        assert s == [s[0]] + s[1..];
      }
    }
  }

  // ---- The texts put in ----

  lemma Marks()
    ensures Ascii(".") == [0x2E] && Ascii("..") == [0x2E, 0x2E] && Ascii("_") == [0x5F] && Ascii("/") == [0x2F] && Ascii("#") == [0x23]
  {
    hide Ascii;
  }

  lemma Brackets()
    ensures Ascii(" (") == [0x20, 0x28] && Ascii(")") == [0x29]
  {
    hide Ascii;
  }

  /** An entry's name as one component: slashes of both kinds and NUL give way to `_`, and a name that is empty or dots is `_`. */
  lemma ComponentIs(s: Text)
    ensures var r := SanitizeComponent(s);
            if s in {[], Ascii("."), Ascii("..")} then r == Ascii("_")
            else |r| == |s| && forall i :: 0 <= i < |s| ==> r[i] == if s[i] in {0x2F, 0x5C, 0} then 0x5F else s[i]
  {
    MapIs(s);
    Marks();
    hide Ascii, MapBytes;
    assert s != [] && !IsDots(s) ==> MapBytes(s, ScrubSeparators) != [] && !IsDots(MapBytes(s, ScrubSeparators));
  }

  lemma {:induction false} MapIs(s: Text)
    ensures |MapBytes(s, ScrubSeparators)| == |s|
    ensures forall i :: 0 <= i < |s| ==> MapBytes(s, ScrubSeparators)[i] == ScrubSeparators(s[i])
  {
  }

  /** The letter is that of the last component: its first character if that is a letter, as a capital, else `#`. */
  lemma LetterIs(dir: Text, leaf: Text)
    requires 0x2F !in leaf
    ensures AlphaBucket(leaf) == AlphaBucket(dir + Ascii("/") + leaf)
    ensures leaf != [] && 0x41 <= leaf[0] <= 0x5A ==> AlphaBucket(leaf) == [leaf[0]]
    ensures leaf != [] && 0x61 <= leaf[0] <= 0x7A ==> AlphaBucket(leaf) == [leaf[0] - 0x20]
    ensures leaf == [] || !(0x41 <= leaf[0] <= 0x5A || 0x61 <= leaf[0] <= 0x7A) ==> AlphaBucket(leaf) == Ascii("#")
  {
    Marks();
    LastSlash(dir, leaf);
    hide Ascii, RSplitOnce;
    LeafIs(leaf, leaf);
    LeafIs(dir + [SEPARATOR] + leaf, leaf);
    hide Leaf;
  }

  lemma LeafIs(path: Text, leaf: Text)
    requires SEPARATOR !in leaf && (path == leaf || exists dir :: RSplitOnce(path, SEPARATOR) == Some((dir, leaf)))
    ensures Leaf(path) == leaf
  {
    hide RSplitOnce;
  }

  lemma {:induction false} LastSlash(a: Text, b: Text)
    requires SEPARATOR !in b
    ensures RSplitOnce(a + [SEPARATOR] + b, SEPARATOR) == Some((a, b))
  {
    var s := a + [SEPARATOR] + b;
    if b == [] {
      assert s[..|s| - 1] == a;
    } else {
      assert s[..|s| - 1] == a + [SEPARATOR] + b[..|b| - 1] && s[|s| - 1] == b[|b| - 1];
      LastSlash(a, b[..|b| - 1]);
      assert b == b[..|b| - 1] + [b[|b| - 1]];
    }
  }

  /** The tag is the first four bytes of the hash as hex digits in brackets, behind a space. */
  lemma TagIs(hash: Hash32, k: nat)
    requires k < 4
    ensures TagOf(hash)[..2] == Ascii(" (") && TagOf(hash)[10..] == Ascii(")")
    ensures TagOf(hash)[2 + 2 * k] == Ascii("0123456789abcdef")[hash[k] / 16] && TagOf(hash)[3 + 2 * k] == Ascii("0123456789abcdef")[hash[k] % 16]
  {
    hide Ascii, Hex, HexDigit;
    HexIs(hash[..4], k);
    HexDigitIs(hash[k] / 16);
    HexDigitIs(hash[k] % 16);
    Brackets();
    var digits := Hex(hash[..4]);
    assert TagOf(hash) == [0x20, 0x28] + digits + [0x29];
    assert TagOf(hash)[2 + 2 * k] == digits[2 * k] && TagOf(hash)[3 + 2 * k] == digits[2 * k + 1];
  }

  lemma HexDigitIs(n: nat)
    requires n < 16
    ensures HexDigit(n) == Ascii("0123456789abcdef")[n]
  {
    hide Ascii;
  }

  lemma {:induction false} HexIs(s: seq<byte>, k: nat)
    requires k < |s|
    ensures Hex(s)[2 * k] == HexDigit(s[k] / 16) && Hex(s)[2 * k + 1] == HexDigit(s[k] % 16)
  {
    if k > 0 {
      HexIs(s[1..], k - 1);
    }
  }
}
