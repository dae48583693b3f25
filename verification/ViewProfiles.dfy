/**
 Constraint profiles (profiles.rs): each component of a view path is scrubbed,
 rewritten until it fits and, failing that, cut, with room kept for the collision tag.
 */
module ViewProfiles {
  import opened Wrappers
  import opened Bytes
  import opened ViewPaths

  /** Room kept in a component for the collision tag ` (xxxxxxxx)`. */
  const SUFFIX_RESERVE: nat := 11
  const LONGEST_EXTENSION: nat := 16
  /** The shortest cap that always leaves whole characters to keep. */
  const LEAST_NAME_LEN: nat := 32

  const OPEN: byte := 0x28
  const CLOSE: byte := 0x29
  const COMMA: byte := 0x2C
  const BANG: byte := 0x21

  datatype Charset = AnyCanonical | FatSafe

  datatype Profile = Profile(charset: Charset, maxNameLen: nat, maxFileSize: Option<nat>, maxDirEntries: Option<nat>)

  datatype Device = Fat32 | Everdrive | Mister | EzflashOmega

  /** The curated set. */
  function ProfileOf(device: Device): (r: Profile)
    ensures r.charset.FatSafe? && r.maxNameLen >= LEAST_NAME_LEN && r.maxDirEntries.Some?
  {
    match device
    case Fat32 => Profile(FatSafe, 255, Some(0xFFFF_FFFF), Some(65_534))
    case Everdrive => Profile(FatSafe, 255, Some(0xFFFF_FFFF), Some(1_000))
    case Mister => Profile(FatSafe, 255, None, Some(10_000))
    case EzflashOmega => Profile(FatSafe, 99, Some(0xFFFF_FFFF), Some(512))
  }

  // ---- Scrubbing ----

  /** Control characters and `" * : < > ? \ |`. */
  predicate IsBanned(b: byte) {
    b < 0x20 || b == 0x22 || b == 0x2A || b == 0x3A || b == 0x3C || b == 0x3E || b == 0x3F || b == BACKSLASH || b == 0x7C
  }

  /** What a component may hold under a charset. */
  predicate IsKept(charset: Charset, b: byte) {
    b != 0 && b != SEPARATOR && (charset.FatSafe? ==> !IsBanned(b))
  }

  predicate AllKept(charset: Charset, s: Text) {
    forall b :: b in s ==> IsKept(charset, b)
  }

  function ScrubBanned(b: byte): byte {
    if IsBanned(b) then UNDERSCORE else b
  }

  predicate IsDotOrSpace(b: byte) {
    b == DOT || b == SPACE
  }

  /** Everything up to the last character that is neither a dot nor a space. */
  function TrimEnd(s: Text): (r: Text)
    ensures r <= s && (r != [] ==> !IsDotOrSpace(r[|r| - 1]))
    ensures forall i :: |r| <= i < |s| ==> IsDotOrSpace(s[i])
  {
    if s != [] && IsDotOrSpace(s[|s| - 1]) then TrimEnd(s[..|s| - 1]) else s
  }

  function Cleaned(component: Text, charset: Charset): Text {
    var scrubbed := match charset
      case AnyCanonical => component
      case FatSafe => TrimEnd(MapBytes(component, ScrubBanned));
    if scrubbed == [] then [UNDERSCORE] else scrubbed
  }

  method Clean(component: Text, charset: Charset) returns (r: Text)
    ensures r == Cleaned(component, charset)
  {
    r := component;
    if charset.FatSafe? {
      r := MapBytes(component, ScrubBanned);
      while r != [] && IsDotOrSpace(r[|r| - 1])
        invariant TrimEnd(r) == TrimEnd(MapBytes(component, ScrubBanned))
      {
        r := r[..|r| - 1];
      }
    }
    if r == [] {
      r := [UNDERSCORE];
    }
  }

  /** A good name is cleaned into a good name of the charset; the FAT charset leaves no dot or space at its end. */
  lemma CleanedIsGood(component: Text, charset: Charset)
    requires GoodComponent(component)
    ensures GoodComponent(Cleaned(component, charset)) && AllKept(charset, Cleaned(component, charset))
    ensures charset.FatSafe? ==> !IsDotOrSpace(Cleaned(component, charset)[|Cleaned(component, charset)| - 1])
    ensures ValidUtf8(component) ==> ValidUtf8(Cleaned(component, charset))
  {
    var mapped := MapBytes(component, ScrubBanned);
    if charset.FatSafe? {
      ScrubKeeps(component);
      TrimKeeps(mapped);
      hide MapBytes, ScrubBanned, ValidUtf8, IsBanned;
      UnderscoreKept();
      GoodIfKept(charset, Cleaned(component, charset));
    }
  }

  lemma UnderscoreKept()
    ensures AllKept(FatSafe, [UNDERSCORE]) && ValidUtf8([UNDERSCORE])
  {
  }

  lemma GoodIfKept(charset: Charset, s: Text)
    requires s != [] && AllKept(charset, s) && s[|s| - 1] != DOT
    ensures GoodComponent(s)
  {
  }

  lemma TrimKeeps(s: Text)
    ensures AllKept(FatSafe, s) ==> AllKept(FatSafe, TrimEnd(s))
    ensures ValidUtf8(s) ==> ValidUtf8(TrimEnd(s))
  {
    hide IsBanned, Utf8Step;
    var trimmed := TrimEnd(s);
    assert forall b :: b in trimmed ==> b in s;
    if |trimmed| < |s| {
      assert IsDotOrSpace(s[|trimmed|]);
      if ValidUtf8(s) {
        BoundaryUtf8(s, |trimmed|);
        assert trimmed == s[..|trimmed|];
      }
    } else {
      assert trimmed == s;
    }
  }

  lemma ScrubKeeps(component: Text)
    requires GoodComponent(component)
    ensures AllKept(FatSafe, MapBytes(component, ScrubBanned))
    ensures ValidUtf8(component) ==> ValidUtf8(MapBytes(component, ScrubBanned))
  {
    forall b | b in MapBytes(component, ScrubBanned) ensures IsKept(FatSafe, b) {
      var i :| 0 <= i < |component| && MapBytes(component, ScrubBanned)[i] == b;
      assert component[i] in component;
    }
    if ValidUtf8(component) {
      MapUtf8(component, ScrubBanned);
    }
  }

  // ---- Rule 1: noise prefixes ----

  predicate IsDigit(b: byte) {
    0x30 <= b <= 0x39
  }

  predicate AreDigits(s: Text) {
    s != [] && forall b :: b in s ==> IsDigit(b)
  }

  function Lower(b: byte): byte {
    if 0x41 <= b <= 0x5A then b + 0x20 else b
  }

  function LowText(s: Text): Text {
    MapBytes(s, Lower)
  }

  /** ` games`, ` in `, `!` and ` - `. */
  const GAMES: Text := [0x20, 0x67, 0x61, 0x6D, 0x65, 0x73]
  const IN: Text := [0x20, 0x69, 0x6E, 0x20]
  const HYPHEN: Text := [0x20, 0x2D, 0x20]

  /** `2 Games in 1! - ` and kin: digits, perhaps ` games`, ` in `, digits, perhaps `!`, ` - `, in any case. */
  ghost predicate IsNoiseOf(p: Text, first: Text, games: bool, second: Text, bang: bool) {
    && AreDigits(first) && AreDigits(second)
    && LowText(p) == first + (if games then GAMES else []) + IN + second + (if bang then [BANG] else []) + HYPHEN
  }

  ghost predicate IsNoise(p: Text) {
    exists first, games, second, bang :: IsNoiseOf(p, first, games, second, bang)
  }

  /** Where the digits from `i` on end. */
  function DigitsEnd(s: Text, i: nat): (r: nat)
    requires i <= |s|
    ensures i <= r <= |s| && (forall k :: i <= k < r ==> IsDigit(s[k])) && (r < |s| ==> !IsDigit(s[r]))
    decreases |s| - i
  {
    if i < |s| && IsDigit(s[i]) then DigitsEnd(s, i + 1) else i
  }

  /** Comparing with the literal slices the name where one of its characters is not over: the source stops in a slice error. */
  predicate CutsAt(s: Text, i: nat, lit: Text) {
    i + |lit| <= |s| && !(IsBoundary(s, i) && IsBoundary(s, i + |lit|))
  }

  predicate Takes(s: Text, i: nat, lit: Text)
    requires i <= |s|
  {
    i + |lit| <= |s| && LowText(s[i..i + |lit|]) == LowText(lit)
  }

  function Skip(s: Text, i: nat, lit: Text): (r: nat)
    requires i <= |s|
    ensures i <= r <= |s|
  {
    if Takes(s, i, lit) then i + |lit| else i
  }

  /** Some slice the cursor takes on its way cuts a character. */
  predicate NoiseHalts(s: Text) {
    var first := DigitsEnd(s, 0);
    first > 0 &&
    (CutsAt(s, first, GAMES) ||
     var games := Skip(s, first, GAMES);
     CutsAt(s, games, IN) ||
     (Takes(s, games, IN) &&
      var second := DigitsEnd(s, games + |IN|);
      second > games + |IN| &&
      (CutsAt(s, second, [BANG]) || CutsAt(s, Skip(s, second, [BANG]), HYPHEN))))
  }

  /** The cursor's end behind a noise prefix, when it halts nowhere. */
  function NoiseEnd(s: Text): (r: Option<nat>)
    ensures r.Some? ==> r.value <= |s|
  {
    var first := DigitsEnd(s, 0);
    if first == 0 then None
    else
      var games := Skip(s, first, GAMES);
      if !Takes(s, games, IN) then None
      else
        var second := DigitsEnd(s, games + |IN|);
        if second == games + |IN| then None
        else
          var bang := Skip(s, second, [BANG]);
          if Takes(s, bang, HYPHEN) then Some(bang + |HYPHEN|) else None
  }

  /** What is left behind a noise prefix: never nothing. */
  function StrippedText(s: Text): (r: Text)
    ensures s != [] ==> r != []
    ensures |r| <= |s| && r == s[|s| - |r|..]
  {
    var end := NoiseEnd(s);
    if end.Some? && end.value < |s| then s[end.value..] else s
  }

  /** What `strip_noise_prefix` gives: nothing when the cursor halts. */
  function Stripped(s: Text): Option<Text> {
    if NoiseHalts(s) then None else Some(StrippedText(s))
  }

  method SkipDigits(name: Text, start: nat) returns (i: nat)
    requires start <= |name|
    ensures i == DigitsEnd(name, start)
  {
    i := start;
    while i < |name| && IsDigit(name[i])
      invariant i <= |name| && DigitsEnd(name, i) == DigitsEnd(name, start)
    {
      i := i + 1;
    }
  }

  /** `take`: the slice is compared first, and there is none when it cuts a character. */
  method Take(name: Text, i: nat, lit: Text) returns (after: Option<nat>)
    requires i <= |name|
    ensures after == if CutsAt(name, i, lit) then None else Some(Skip(name, i, lit))
  {
    var end := i + |lit|;
    if end > |name| {
      return Some(i);
    }
    if !IsBoundary(name, i) || !IsBoundary(name, end) {
      return None;
    }
    return Some(if LowText(name[i..end]) == LowText(lit) then end else i);
  }

  /** The cursor of `strip_noise_prefix`, moved over the prefix part by part. */
  method FindNoiseEnd(name: Text) returns (halts: bool, end: Option<nat>)
    ensures halts <==> NoiseHalts(name)
    ensures !halts ==> end == NoiseEnd(name)
  {
    hide CutsAt, DigitsEnd;
    var i := SkipDigits(name, 0);
    if i == 0 {
      return false, None;
    }
    var taken := Take(name, i, GAMES);
    if taken.None? {
      return true, None;
    }
    i := taken.value;
    taken := Take(name, i, IN);
    if taken.None? {
      return true, None;
    }
    if taken.value == i {
      return false, None;
    }
    i := taken.value;
    var start := i;
    i := SkipDigits(name, start);
    if i == start {
      return false, None;
    }
    taken := Take(name, i, [BANG]);
    if taken.None? {
      return true, None;
    }
    i := taken.value;
    taken := Take(name, i, HYPHEN);
    if taken.None? {
      return true, None;
    }
    return false, if taken.value == i then None else Some(taken.value);
  }

  /** `strip_noise_prefix`: the source stops exactly when a slice cuts a character. */
  method StripNoisePrefix(name: Text) returns (r: Option<Text>)
    ensures r == Stripped(name)
  {
    hide NoiseEnd, NoiseHalts;
    var halts, i := FindNoiseEnd(name);
    if halts {
      return None;
    }
    if i.None? || i.value >= |name| {
      return Some(name);
    }
    return Some(name[i.value..]);
  }

  // ---- Where the cursor halts ----

  predicate IsContinuation(b: byte) {
    Between(0x80, b, 0xBF)
  }

  /** A character goes on at `n`. */
  predicate GoesOn(s: Text, n: nat) {
    n < |s| && IsContinuation(s[n])
  }

  /** All the digits there are from `i` to `j`, one at least. */
  ghost predicate DigitRun(s: Text, i: nat, j: nat) {
    i < j <= |s| && (forall k :: i <= k < j ==> IsDigit(s[k])) && (j < |s| ==> !IsDigit(s[j]))
  }

  ghost predicate Spelled(s: Text, i: nat, lit: Text) {
    i + |lit| <= |s| && LowText(s[i..i + |lit|]) == lit
  }

  /** A leading number ends at `i`, and ` games` with it, if it is there, at `j`. */
  ghost predicate Counted(s: Text, i: nat, j: nat) {
    DigitRun(s, 0, i) && (j == i || (j == i + |GAMES| && Spelled(s, i, GAMES)))
  }

  /** Then ` in ` and a second number up to `k`. */
  ghost predicate CountedIn(s: Text, i: nat, j: nat, k: nat) {
    Counted(s, i, j) && Spelled(s, j, IN) && DigitRun(s, j + |IN|, k)
  }

  /** A character lies six bytes behind the leading number (` games`), or four behind it or behind `games` (` in `). */
  ghost predicate CutsEarly(s: Text, i: nat, j: nat) {
    Counted(s, i, j) && (GoesOn(s, i + |GAMES|) || GoesOn(s, j + |IN|))
  }

  /** One lies across the byte behind the second number (`!`), or three bytes behind it and its exclamation mark (` - `). */
  ghost predicate CutsLate(s: Text, i: nat, j: nat, k: nat) {
    CountedIn(s, i, j, k) && (GoesOn(s, k + 1) || GoesOn(s, k + |HYPHEN| + if k < |s| && s[k] == BANG then 1 else 0))
  }

  /** A character lies across a place where the next part of a noise prefix would end. */
  ghost predicate CutsCharacter(s: Text) {
    (exists i: nat, j: nat :: CutsEarly(s, i, j)) || (exists i: nat, j: nat, k: nat :: CutsLate(s, i, j, k))
  }

  lemma CutsBehind(s: Text, i: nat, lit: Text)
    requires 0 < i <= |s| && s[i - 1] < 0x80 && ValidUtf8(s) && lit != []
    ensures CutsAt(s, i, lit) <==> GoesOn(s, i + |lit|)
  {
    hide ValidUtf8;
    assert s == s[..i - 1] + [s[i - 1]] + s[i..];
    AsciiCuts(s[..i - 1], s[i - 1], s[i..]);
    CharStart(s[i..]);
  }

  lemma TakesSpells(s: Text, i: nat, lit: Text)
    requires i <= |s| && IsLow(lit)
    ensures Takes(s, i, lit) <==> Spelled(s, i, lit)
  {
    assert LowText(lit) == lit;
  }

  lemma SpelledAscii(s: Text, i: nat, lit: Text)
    requires Spelled(s, i, lit) && lit != [] && lit[|lit| - 1] < 0x80
    ensures s[i + |lit| - 1] < 0x80
  {
    assert LowText(s[i..i + |lit|])[|lit| - 1] == Lower(s[i + |lit| - 1]);
  }

  lemma SpelledLetters(s: Text, i: nat)
    ensures Spelled(s, i, GAMES) ==> Lower(s[i + 1]) == 0x67 && Lower(s[i + 4]) == 0x65
    ensures Spelled(s, i, IN) ==> Lower(s[i + 1]) == 0x69
  {
    if Spelled(s, i, GAMES) {
      var low := LowText(s[i..i + |GAMES|]);
      assert low[1] == Lower(s[i + 1]) && low[4] == Lower(s[i + 4]);
    }
    if Spelled(s, i, IN) {
      assert LowText(s[i..i + |IN|])[1] == Lower(s[i + 1]);
    }
  }

  /** ` games` is neither ` in ` nor cut four bytes on. */
  lemma NotGames(s: Text, i: nat)
    requires GoesOn(s, i + |IN|) || Spelled(s, i, IN)
    ensures !Spelled(s, i, GAMES)
  {
    SpelledLetters(s, i);
    hide LowText;
  }

  lemma BangTaken(s: Text, k: nat)
    requires k <= |s|
    ensures Skip(s, k, [BANG]) == k + if k < |s| && s[k] == BANG then 1 else 0
  {
    if k < |s| {
      assert s[k..k + 1] == [s[k]];
      assert LowText([s[k]]) == [Lower(s[k])] && LowText([BANG]) == [BANG];
    }
  }

  lemma FirstStop(s: Text, i: nat, j: nat)
    requires Counted(s, i, j) && ValidUtf8(s)
    ensures i == DigitsEnd(s, 0) && i <= j <= |s|
    ensures CutsAt(s, i, GAMES) <==> GoesOn(s, i + |GAMES|)
    ensures CutsAt(s, j, IN) <==> GoesOn(s, j + |IN|)
    ensures Takes(s, j, IN) <==> Spelled(s, j, IN)
    ensures GoesOn(s, j + |IN|) || Spelled(s, j, IN) ==> j == Skip(s, i, GAMES)
  {
    hide ValidUtf8, DigitsEnd, Takes, Spelled, IsLow, CutsAt, GoesOn, LowText, Lower, Counted, Skip;
    CountedAscii(s, i, j);
    CutsBehind(s, i, GAMES);
    CutsBehind(s, j, IN);
    CountedTakes(s, i, j);
  }

  /** What is counted is ASCII up to its end, and the digits are all there are. */
  lemma CountedAscii(s: Text, i: nat, j: nat)
    requires Counted(s, i, j)
    ensures i == DigitsEnd(s, 0) && 0 < i <= j <= |s| && s[i - 1] < 0x80 && s[j - 1] < 0x80
  {
    DigitsEndIs(s, 0, i);
    assert IsDigit(s[i - 1]);
    hide LowText, Lower, DigitsEnd;
    if j > i {
      SpelledAscii(s, i, GAMES);
    }
  }

  lemma CountedTakes(s: Text, i: nat, j: nat)
    requires Counted(s, i, j) && i <= j <= |s|
    ensures Takes(s, j, IN) <==> Spelled(s, j, IN)
    ensures GoesOn(s, j + |IN|) || Spelled(s, j, IN) ==> j == Skip(s, i, GAMES)
  {
    hide Takes, Spelled, IsLow, GoesOn, LowText, Lower;
    LowLiterals();
    TakesSpells(s, i, GAMES);
    TakesSpells(s, j, IN);
    if j == i && (GoesOn(s, j + |IN|) || Spelled(s, j, IN)) {
      NotGames(s, i);
    }
  }

  lemma SecondStop(s: Text, i: nat, j: nat, k: nat)
    requires CountedIn(s, i, j, k) && ValidUtf8(s)
    ensures j + |IN| < k == DigitsEnd(s, j + |IN|) <= |s|
    ensures CutsAt(s, k, [BANG]) <==> GoesOn(s, k + 1)
    ensures CutsAt(s, Skip(s, k, [BANG]), HYPHEN) <==> GoesOn(s, k + |HYPHEN| + if k < |s| && s[k] == BANG then 1 else 0)
  {
    hide ValidUtf8, DigitsEnd, Takes, Skip, Spelled, Counted, CutsAt, GoesOn;
    DigitsEndIs(s, j + |IN|, k);
    BangTaken(s, k);
    assert IsDigit(s[k - 1]);
    CutsBehind(s, k, [BANG]);
    CutsBehind(s, Skip(s, k, [BANG]), HYPHEN);
  }

  /** The cursor halts on exactly the names with a character across one of those places. */
  lemma HaltsExactly(s: Text)
    requires ValidUtf8(s)
    ensures NoiseHalts(s) <==> CutsCharacter(s)
  {
    if NoiseHalts(s) {
      HaltIsCut(s);
    }
    if CutsCharacter(s) {
      hide NoiseHalts, ValidUtf8, CutsEarly, CutsLate;
      if i: nat, j: nat :| CutsEarly(s, i, j) {
        CutHalts(s, i, j);
      } else {
        var i: nat, j: nat, k: nat :| CutsLate(s, i, j, k);
        LateCutHalts(s, i, j, k);
      }
    }
  }

  lemma CutHalts(s: Text, i: nat, j: nat)
    requires ValidUtf8(s) && CutsEarly(s, i, j)
    ensures NoiseHalts(s)
  {
    FirstStop(s, i, j);
    hide ValidUtf8, DigitsEnd, Takes, Spelled, Skip, CutsAt, GoesOn;
  }

  lemma LateCutHalts(s: Text, i: nat, j: nat, k: nat)
    requires ValidUtf8(s) && CutsLate(s, i, j, k)
    ensures NoiseHalts(s)
  {
    FirstStop(s, i, j);
    SecondStop(s, i, j, k);
    hide ValidUtf8, DigitsEnd, Takes, Spelled, Skip, CutsAt, GoesOn;
  }

  lemma CountedByCursor(s: Text)
    requires DigitsEnd(s, 0) > 0
    ensures Counted(s, DigitsEnd(s, 0), Skip(s, DigitsEnd(s, 0), GAMES))
  {
    LowLiterals();
    var i := DigitsEnd(s, 0);
    assert DigitRun(s, 0, i);
    hide DigitsEnd, Takes, Spelled, IsLow, DigitRun;
    TakesSpells(s, i, GAMES);
  }

  lemma HaltIsCut(s: Text)
    requires ValidUtf8(s) && NoiseHalts(s)
    ensures CutsCharacter(s)
  {
    hide ValidUtf8, DigitsEnd, Takes, Spelled, Skip, CutsAt, GoesOn, Counted, DigitRun;
    var i := DigitsEnd(s, 0);
    var j := Skip(s, i, GAMES);
    CountedByCursor(s);
    FirstStop(s, i, j);
    if CutsAt(s, i, GAMES) || CutsAt(s, j, IN) {
      assert CutsEarly(s, i, j);
    } else {
      var k := DigitsEnd(s, j + |IN|);
      RunByCursor(s, j + |IN|);
      SecondStop(s, i, j, k);
      assert CutsLate(s, i, j, k);
    }
  }

  lemma RunByCursor(s: Text, i: nat)
    requires i <= |s| && DigitsEnd(s, i) > i
    ensures DigitRun(s, i, DigitsEnd(s, i))
  {
  }

  lemma {:induction false} DigitsEndIs(s: Text, i: nat, end: nat)
    requires i <= end <= |s| && (forall k :: i <= k < end ==> IsDigit(s[k])) && (end < |s| ==> !IsDigit(s[end]))
    ensures DigitsEnd(s, i) == end
    decreases end - i
  {
    if i < end {
      DigitsEndIs(s, i + 1, end);
    }
  }

  /** The cursor finds a noise prefix exactly where the grammar has one, so there is at most one. */
  lemma NoiseEndExact(s: Text, n: nat)
    requires n <= |s|
    ensures NoiseEnd(s) == Some(n) <==> IsNoise(s[..n])
  {
    if NoiseEnd(s) == Some(n) {
      NoiseFound(s, n);
    }
    if IsNoise(s[..n]) {
      var first, games, second, bang :| IsNoiseOf(s[..n], first, games, second, bang);
      NoiseIsFound(s, n, first, games, second, bang);
    }
  }

  lemma LowSlice(s: Text, n: nat, i: nat, j: nat)
    requires i <= j <= n <= |s|
    ensures LowText(s[..n])[i..j] == LowText(s[i..j])
  {
  }

  lemma DigitsLow(s: Text, i: nat, j: nat)
    requires i < j <= |s| && forall k :: i <= k < j ==> IsDigit(s[k])
    ensures AreDigits(s[i..j]) && LowText(s[i..j]) == s[i..j]
  {
    forall b | b in s[i..j] ensures IsDigit(b) {
      var k :| 0 <= k < j - i && s[i..j][k] == b;
    }
  }

  predicate IsLow(lit: Text) {
    forall b :: b in lit ==> Lower(b) == b
  }

  lemma SkipLow(s: Text, n: nat, i: nat, lit: Text)
    requires i <= n <= |s| && Skip(s, i, lit) <= n && IsLow(lit)
    ensures LowText(s[..n])[i..Skip(s, i, lit)] == if Takes(s, i, lit) then lit else []
  {
    LowSlice(s, n, i, Skip(s, i, lit));
    assert LowText(lit) == lit;
  }

  lemma SixParts(t: Text, i: nat, j: nat, k: nat, l: nat, m: nat, a: Text, b: Text, c: Text, d: Text, e: Text, f: Text)
    requires i <= j <= k <= l <= m <= |t|
    requires t[..i] == a && t[i..j] == b && t[j..k] == c && t[k..l] == d && t[l..m] == e && t[m..] == f
    ensures t == a + b + c + d + e + f
  {
  }

  /** The cursor's stops. */
  lemma NoiseStops(s: Text, i: nat, j: nat, k: nat, l: nat)
    requires NoiseEnd(s).Some? && i == DigitsEnd(s, 0) && j == Skip(s, i, GAMES) && j + |IN| <= |s|
    requires k == DigitsEnd(s, j + |IN|) && l == Skip(s, k, [BANG])
    ensures 0 < i <= j && j + |IN| < k <= l && NoiseEnd(s) == Some(l + |HYPHEN|) && l + |HYPHEN| <= |s|
    ensures Skip(s, j, IN) == j + |IN| && Skip(s, l, HYPHEN) == l + |HYPHEN| && Takes(s, j, IN) && Takes(s, l, HYPHEN)
    ensures (forall m :: 0 <= m < i ==> IsDigit(s[m])) && forall m :: j + |IN| <= m < k ==> IsDigit(s[m])
  {
  }

  lemma NoiseFound(s: Text, n: nat)
    requires n <= |s| && NoiseEnd(s) == Some(n)
    ensures IsNoise(s[..n])
  {
    var i := DigitsEnd(s, 0);
    var j := Skip(s, i, GAMES);
    var k := DigitsEnd(s, j + |IN|);
    var l := Skip(s, k, [BANG]);
    NoiseStops(s, i, j, k, l);
    var low := LowText(s[..n]);
    var games, bang := Takes(s, i, GAMES), Takes(s, k, [BANG]);
    hide DigitsEnd, Takes, Skip, LowText, NoiseEnd, AreDigits, IsNoise;
    LowLiterals();
    LowLength(s, n);
    CutEnds(s, n, low, i, l);
    SkipLow(s, n, i, GAMES);
    SkipLow(s, n, j, IN);
    SkipLow(s, n, k, [BANG]);
    DigitsLow(s, j + |IN|, k);
    LowSlice(s, n, j + |IN|, k);
    Assembled(s, n, low, i, j, k, l, games, bang);
  }

  lemma CutEnds(s: Text, n: nat, low: Text, i: nat, l: nat)
    requires n <= |s| && low == LowText(s[..n]) && |low| == n == l + |HYPHEN| && 0 < i <= l
    requires (forall m :: 0 <= m < i ==> IsDigit(s[m])) && Skip(s, l, HYPHEN) == n
    ensures low[..i] == s[..i] && AreDigits(s[..i]) && low[l..] == HYPHEN
  {
    hide Lower, IsDigit;
    DigitsLow(s, 0, i);
    LowSlice(s, n, 0, i);
    LowLiterals();
    SkipLow(s, n, l, HYPHEN);
    assert s[0..i] == s[..i] && low[0..i] == low[..i] && low[l..n] == low[l..];
  }

  lemma Assembled(s: Text, n: nat, low: Text, i: nat, j: nat, k: nat, l: nat, games: bool, bang: bool)
    requires n <= |s| && low == LowText(s[..n]) && i <= j && j + |IN| <= k <= l <= |low| && l <= n
    requires low[..i] == s[..i] && low[i..j] == (if games then GAMES else []) && low[j..j + |IN|] == IN
    requires low[j + |IN|..k] == s[j + |IN|..k] && low[k..l] == (if bang then [BANG] else []) && low[l..] == HYPHEN
    requires AreDigits(s[..i]) && AreDigits(s[j + |IN|..k])
    ensures IsNoise(s[..n])
  {
    hide LowText, AreDigits, IsNoise;
    SixParts(low, i, j, j + |IN|, k, l, s[..i], if games then GAMES else [], IN, s[j + |IN|..k], if bang then [BANG] else [], HYPHEN);
    NoiseBy(s[..n], s[..i], games, s[j + |IN|..k], bang);
  }

  lemma NoiseBy(p: Text, first: Text, games: bool, second: Text, bang: bool)
    requires AreDigits(first) && AreDigits(second)
    requires LowText(p) == first + (if games then GAMES else []) + IN + second + (if bang then [BANG] else []) + HYPHEN
    ensures IsNoise(p)
  {
    assert IsNoiseOf(p, first, games, second, bang);
  }

  /** Where the parts of a noise prefix lie. */
  ghost predicate Laid(low: Text, i: nat, j: nat, k: nat, l: nat, games: bool, bang: bool) {
    && 0 < i && j == i + (if games then |GAMES| else 0) && j + |IN| < k && l == k + (if bang then 1 else 0) && |low| == l + |HYPHEN|
    && i + |GAMES| <= |low|
    && (low[i..i + |GAMES|] == GAMES <==> games) && low[j..j + |IN|] == IN
    && (low[k..k + 1] == [BANG] <==> bang) && low[l..l + |HYPHEN|] == HYPHEN
    && !IsDigit(low[i]) && !IsDigit(low[k])
    && (forall m :: 0 <= m < i ==> IsDigit(low[m])) && forall m :: j + |IN| <= m < k ==> IsDigit(low[m])
  }

  lemma NoiseLies(low: Text, first: Text, games: bool, second: Text, bang: bool, i: nat, j: nat, k: nat, l: nat)
    requires AreDigits(first) && AreDigits(second)
    requires low == first + (if games then GAMES else []) + IN + second + (if bang then [BANG] else []) + HYPHEN
    requires i == |first| && j == i + (if games then |GAMES| else 0) && k == j + |IN| + |second| && l == k + if bang then 1 else 0
    ensures Laid(low, i, j, k, l, games, bang)
  {
    var head := first + (if games then GAMES else []);
    var upTo := head + IN + second;
    hide LowText;
    assert |HYPHEN| == 3 && |head| == j && |upTo| == k && |upTo + (if bang then [BANG] else [])| == l;
    forall m | 0 <= m < i ensures IsDigit(low[m]) {
      assert low[m] == first[m] && first[m] in first;
    }
    forall m | j + |IN| <= m < k ensures IsDigit(low[m]) {
      assert low[m] == upTo[m] == second[m - j - |IN|] && second[m - j - |IN|] in second;
    }
    assert low[j..j + |IN|] == IN;
    assert low[i..i + |GAMES|][1] == low[i + 1] && low[k..k + 1][0] == low[k];
    assert games ==> low[i..i + |GAMES|] == GAMES;
    assert low[i] == SPACE && (if bang then low[k] == BANG else low[k] == SPACE);
  }

  lemma RunEnds(s: Text, n: nat, low: Text, i: nat, j: nat)
    requires i <= j < n <= |s| && low == LowText(s[..n])
    requires (forall m :: i <= m < j ==> IsDigit(low[m])) && !IsDigit(low[j])
    ensures DigitsEnd(s, i) == j
  {
    assert forall m :: i <= m <= j ==> low[m] == Lower(s[m]);
    DigitsEndIs(s, i, j);
  }

  lemma NoiseIsFound(s: Text, n: nat, first: Text, games: bool, second: Text, bang: bool)
    requires n <= |s| && IsNoiseOf(s[..n], first, games, second, bang)
    ensures NoiseEnd(s) == Some(n)
  {
    var low := LowText(s[..n]);
    var i := |first|;
    var j := i + if games then |GAMES| else 0;
    var k := j + |IN| + |second|;
    var l := k + if bang then 1 else 0;
    NoiseLies(low, first, games, second, bang, i, j, k, l);
    LaidIsFound(s, n, low, i, j, k, l, games, bang);
  }

  lemma LaidIsFound(s: Text, n: nat, low: Text, i: nat, j: nat, k: nat, l: nat, games: bool, bang: bool)
    requires n <= |s| && low == LowText(s[..n]) && |low| == n && Laid(low, i, j, k, l, games, bang)
    ensures NoiseEnd(s) == Some(n)
  {
    LowLiterals();
    hide DigitsEnd, Takes, Skip, LowText, Lower, IsLow, IsDigit, NoiseEnd;
    RunEnds(s, n, low, 0, i);
    RunEnds(s, n, low, j + |IN|, k);
    TakesLow(s, n, low, i, GAMES);
    TakesLow(s, n, low, j, IN);
    TakesLow(s, n, low, k, [BANG]);
    TakesLow(s, n, low, l, HYPHEN);
    SkipBy(s, i, GAMES);
    SkipBy(s, k, [BANG]);
    NoiseEndBy(s, i, j, k, l);
  }

  lemma LowLength(s: Text, n: nat)
    requires n <= |s|
    ensures |LowText(s[..n])| == n
  {
  }

  lemma SkipBy(s: Text, i: nat, lit: Text)
    requires i <= |s|
    ensures Skip(s, i, lit) == if Takes(s, i, lit) then i + |lit| else i
  {
  }

  lemma NoiseEndBy(s: Text, i: nat, j: nat, k: nat, l: nat)
    requires 0 < i <= j && j + |IN| < k <= l <= |s|
    requires DigitsEnd(s, 0) == i && Skip(s, i, GAMES) == j && Takes(s, j, IN)
    requires DigitsEnd(s, j + |IN|) == k && Skip(s, k, [BANG]) == l && Takes(s, l, HYPHEN)
    ensures NoiseEnd(s) == Some(l + |HYPHEN|)
  {
    hide DigitsEnd, Takes, Skip;
  }

  lemma LowLiterals()
    ensures IsLow(GAMES) && IsLow(IN) && IsLow([BANG]) && IsLow(HYPHEN)
  {
  }

  lemma TakesLow(s: Text, n: nat, low: Text, i: nat, lit: Text)
    requires n <= |s| && low == LowText(s[..n]) && i <= |s|
    requires IsLow(lit)
    ensures i + |lit| <= n ==> (Takes(s, i, lit) <==> low[i..i + |lit|] == lit)
  {
    if i + |lit| <= n {
      assert low[i..i + |lit|] == LowText(s[i..i + |lit|]);
      assert LowText(lit) == lit;
    }
  }

  // ---- Rule 2: region tags ----

  /** The region table: one capital letter for a token, whatever spaces and case it is written with. */
  type RegionCodes = Text -> Option<byte>

  ghost predicate AreCodes(codes: RegionCodes) {
    forall t: Text :: codes(t).Some? ==> 0x41 <= codes(t).value <= 0x5A
  }

  function CodesOf(tokens: seq<Text>, codes: RegionCodes): (r: Option<seq<Text>>)
    ensures r.Some? ==> |r.value| == |tokens|
  {
    if tokens == [] then Some([])
    else
      var (head, rest) := (codes(tokens[0]), CodesOf(tokens[1..], codes));
      if head.None? || rest.None? then None else Some([[head.value]] + rest.value)
  }

  /** A parenthesized group: compressed when every token has a code, untouched otherwise. */
  function Group(inner: Text, codes: RegionCodes): Text {
    var found := CodesOf(Split(inner, COMMA), codes);
    [OPEN] + (if found.Some? then Join(found.value, COMMA) else inner) + [CLOSE]
  }

  /** The first opening parenthesis and the first closing one behind it. */
  function FirstGroup(s: Text): (r: Option<(nat, nat)>)
    ensures r.Some? ==> r.value.0 < r.value.1 < |s| && s[r.value.0] == OPEN && s[r.value.1] == CLOSE
  {
    var open := Position(s, OPEN);
    if open.None? then None
    else
      var close := Position(s[open.value..], CLOSE);
      if close.None? then None else Some((open.value, open.value + close.value))
  }

  function Compressed(s: Text, codes: RegionCodes): Text
    decreases |s|
  {
    var group := FirstGroup(s);
    if group.None? then s
    else s[..group.value.0] + Group(s[group.value.0 + 1..group.value.1], codes) + Compressed(s[group.value.1 + 1..], codes)
  }

  lemma Appended(a: Text, b: Text, c: Text, d: Text)
    ensures a + (b + c + d) == a + b + c + d
  {
  }

  /** `compress_region_tags`. */
  method CompressRegionTags(name: Text, codes: RegionCodes) returns (out: Text)
    ensures out == Compressed(name, codes)
  {
    hide Group, Position, Compressed;
    out := [];
    var rest := name;
    while true
      invariant out + Compressed(rest, codes) == Compressed(name, codes)
      decreases |rest|
    {
      var open := Position(rest, OPEN);
      if open.None? {
        break;
      }
      var close := Position(rest[open.value..], CLOSE);
      if close.None? {
        break;
      }
      var end := open.value + close.value;
      FirstGroupIs(rest, open.value, end);
      CompressedStep(rest, codes, open.value, end);
      var before, group, tail := rest[..open.value], Group(rest[open.value + 1..end], codes), rest[end + 1..];
      Appended(out, before, group, Compressed(tail, codes));
      out := out + before + group;
      rest := tail;
    }
    CompressedPlain(rest, codes);
    out := out + rest;
  }

  lemma CompressedStep(s: Text, codes: RegionCodes, open: nat, close: nat)
    requires open < close < |s| && FirstGroup(s) == Some((open, close))
    ensures Compressed(s, codes) == s[..open] + Group(s[open + 1..close], codes) + Compressed(s[close + 1..], codes)
  {
    hide Group, FirstGroup;
  }

  lemma FirstGroupIs(s: Text, open: nat, close: nat)
    requires open < close < |s| && Position(s, OPEN) == Some(open) && Position(s[open..], CLOSE) == Some(close - open)
    ensures FirstGroup(s) == Some((open, close))
  {
    hide Position;
  }

  lemma CompressedPlain(s: Text, codes: RegionCodes)
    requires Position(s, OPEN).None? || Position(s[Position(s, OPEN).value..], CLOSE).None?
    ensures Compressed(s, codes) == s
  {
  }

  // ---- Rule 3 and the cut ----

  /** The extension, unless what precedes its dot is empty or it is itself too long to be one. */
  function SplitExtension(s: Text): (r: (Text, Option<Text>))
    ensures r.1.None? ==> r.0 == s
    ensures r.1.Some? ==> r.0 != [] && |r.1.value| <= LONGEST_EXTENSION && s == r.0 + [DOT] + r.1.value
  {
    var cut := RSplitOnce(s, DOT);
    if cut.Some? && cut.value.0 != [] && |cut.value.1| <= LONGEST_EXTENSION then (cut.value.0, Some(cut.value.1)) else (s, None)
  }

  function WithExtension(stem: Text, ext: Option<Text>): Text {
    if ext.Some? then stem + [DOT] + ext.value else stem
  }

  predicate IsJunk(b: byte) {
    b == SPACE || b == DOT || b == DASH
  }

  predicate EndsEmpty(s: Text) {
    |s| >= 2 && (s[|s| - 2..] == [OPEN, CLOSE] || s[|s| - 2..] == [0x5B, 0x5D])
  }

  /** Spaces, dots, dashes and empty brackets dropped from the end, in whatever order they come. */
  function TrimStem(s: Text): (r: Text)
    ensures r <= s && (r != [] ==> !IsJunk(r[|r| - 1])) && !EndsEmpty(r)
    decreases |s|
  {
    if s != [] && IsJunk(s[|s| - 1]) then TrimStem(s[..|s| - 1])
    else if EndsEmpty(s) then TrimStem(s[..|s| - 2])
    else s
  }

  function TrimmedJunk(s: Text): Text {
    var (stem, ext) := SplitExtension(s);
    WithExtension(if TrimStem(stem) == [] then [UNDERSCORE] else TrimStem(stem), ext)
  }

  /** `trim_trailing_junk`: passes over the stem until one changes nothing. */
  method TrimTrailingJunk(name: Text) returns (r: Text)
    ensures r == TrimmedJunk(name)
  {
    var (whole, ext) := SplitExtension(name);
    var stem := whole;
    while true
      invariant TrimStem(stem) == TrimStem(whole)
      decreases |stem|
    {
      var before := |stem|;
      while stem != [] && IsJunk(stem[|stem| - 1])
        invariant |stem| <= before && TrimStem(stem) == TrimStem(whole)
      {
        stem := stem[..|stem| - 1];
      }
      if |stem| >= 2 && stem[|stem| - 2..] == [OPEN, CLOSE] {
        stem := stem[..|stem| - 2];
      }
      if |stem| >= 2 && stem[|stem| - 2..] == [0x5B, 0x5D] {
        stem := stem[..|stem| - 2];
      }
      if |stem| == before || stem == [] {
        break;
      }
    }
    if stem == [] {
      stem := [UNDERSCORE];
    }
    r := WithExtension(stem, ext);
  }

  /** The last character boundary at or before `i`. */
  function BoundaryAtMost(s: Text, i: nat): (r: nat)
    ensures r <= i && IsBoundary(s, r) && forall k :: r < k <= i ==> !IsBoundary(s, k)
  {
    if IsBoundary(s, i) then i else BoundaryAtMost(s, i - 1)
  }

  function CutBudget(max: nat, ext: Option<Text>): nat {
    var cost := if ext.Some? then |ext.value| + 1 else 0;
    if cost < max then max - cost else 1
  }

  function Min(a: nat, b: nat): nat {
    if a < b then a else b
  }

  /** A name cut to `max` bytes at a character boundary, its extension kept. */
  function Capped(s: Text, max: nat): Text {
    if |s| <= max then s
    else
      var (stem, ext) := SplitExtension(s);
      var cut := BoundaryAtMost(stem, Min(CutBudget(max, ext), |stem|));
      WithExtension(stem[..cut], ext)
  }

  /** The cut leaves no whole character, and the one byte that is kept at least is a part of one. */
  predicate CapHalts(s: Text, max: nat) {
    var (stem, ext) := SplitExtension(s);
    |s| > max && BoundaryAtMost(stem, Min(CutBudget(max, ext), |stem|)) == 0
  }

  /** `cap_component`: the source stops in a slice error exactly when the first character is too long for the cap. */
  method CapComponent(component: Text, max: nat) returns (r: Option<Text>)
    requires ValidUtf8(component)
    ensures r == if CapHalts(component, max) then None else Some(Capped(component, max))
  {
    if |component| <= max {
      return Some(component);
    }
    var (stem, ext) := SplitExtension(component);
    var most := Min(CutBudget(max, ext), |stem|);
    var cut: nat := most;
    while cut > 0 && !IsBoundary(stem, cut)
      invariant cut <= |stem| && BoundaryAtMost(stem, cut) == BoundaryAtMost(stem, most)
    {
      cut := cut - 1;
    }
    var kept := if cut > 1 then cut else 1;
    if !IsBoundary(stem, kept) {
      return None;
    }
    return Some(WithExtension(stem[..kept], ext));
  }

  /** A cap with room for one whole character never stops it. */
  lemma CapGoesOn(s: Text, max: nat)
    requires ValidUtf8(s) && max >= LEAST_NAME_LEN - SUFFIX_RESERVE
    ensures !CapHalts(s, max)
  {
    hide ValidUtf8, BoundaryAtMost;
    if |s| > max {
      StemUtf8(s);
      var (stem, ext) := SplitExtension(s);
      NearBoundary(stem, Min(CutBudget(max, ext), |stem|));
      WholeBoundary(stem);
    }
  }

  lemma WholeBoundary(s: Text)
    ensures BoundaryAtMost(s, |s|) == |s|
  {
  }

  lemma StemUtf8(s: Text)
    requires ValidUtf8(s)
    ensures ValidUtf8(SplitExtension(s).0)
    ensures SplitExtension(s).1.Some? ==> ValidUtf8(SplitExtension(s).1.value)
  {
    var (stem, ext) := SplitExtension(s);
    if ext.Some? {
      AsciiCuts(stem, DOT, ext.value);
    }
  }

  /** No character is longer than four bytes. */
  lemma {:induction false} NearBoundary(s: Text, i: nat)
    requires ValidUtf8(s) && i <= |s|
    ensures BoundaryAtMost(s, i) + 3 >= i
    decreases |s|
  {
    if s != [] {
      var n := Utf8Step(s);
      if i < n {
        assert IsBoundary(s, 0);
      } else {
        NearBoundary(s[n..], i - n);
        var b := BoundaryAtMost(s[n..], i - n);
        CharStart(s[n..]);
        assert b < |s[n..]| ==> s[n..][b] == s[n + b];
        assert IsBoundary(s, n + b);
      }
    }
  }

  lemma CharStart(s: Text)
    requires ValidUtf8(s)
    ensures s != [] ==> !Between(0x80, s[0], 0xBF)
  {
  }

  // ---- The pipeline ----

  /** What the rules make of a name, in order, each only while it is too long. */
  function FittedText(s: Text, budget: nat, codes: RegionCodes): Text {
    if |s| <= budget then s
    else if |StrippedText(s)| <= budget then StrippedText(s)
    else if |Compressed(StrippedText(s), codes)| <= budget then Compressed(StrippedText(s), codes)
    else TrimmedJunk(Compressed(StrippedText(s), codes))
  }

  /** `fit_component`: the source stops exactly when the first rule does. */
  method FitComponent(component: Text, budget: nat, codes: RegionCodes) returns (r: Option<Text>)
    ensures r == if |component| > budget && NoiseHalts(component) then None else Some(FittedText(component, budget, codes))
  {
    hide NoiseHalts, StrippedText, Compressed, TrimmedJunk;
    if |component| <= budget {
      return Some(component);
    }
    var stripped := StripNoisePrefix(component);
    if stripped.None? {
      return None;
    }
    var name := stripped.value;
    if |name| <= budget {
      return Some(name);
    }
    name := CompressRegionTags(name, codes);
    if |name| <= budget {
      return Some(name);
    }
    name := TrimTrailingJunk(name);
    return Some(name);
  }

  function Budget(profile: Profile): nat {
    if profile.maxNameLen > SUFFIX_RESERVE then profile.maxNameLen - SUFFIX_RESERVE else 0
  }

  function ConstrainedText(component: Text, profile: Profile, codes: RegionCodes): Text {
    Capped(FittedText(Cleaned(component, profile.charset), Budget(profile), codes), Budget(profile))
  }

  /** Constraining a component stops in a slice error: in the first rule or, under a tiny cap, at the cut. */
  predicate ConstrainHalts(component: Text, profile: Profile, codes: RegionCodes) {
    var cleaned := Cleaned(component, profile.charset);
    (|cleaned| > Budget(profile) && NoiseHalts(cleaned)) || CapHalts(FittedText(cleaned, Budget(profile), codes), Budget(profile))
  }

  function Constrained(component: Text, profile: Profile, codes: RegionCodes): Option<Text> {
    if ConstrainHalts(component, profile, codes) then None else Some(ConstrainedText(component, profile, codes))
  }

  // ---- What each step keeps ----

  lemma Parenthesized(charset: Charset, inner: Text)
    ensures AllKept(charset, inner) ==> AllKept(charset, [OPEN] + inner + [CLOSE])
    ensures ValidUtf8(inner) ==> ValidUtf8([OPEN] + inner + [CLOSE])
  {
    assert forall b :: b in [OPEN] + inner + [CLOSE] <==> b == OPEN || b in inner || b == CLOSE;
    if ValidUtf8(inner) {
      ConcatUtf8([OPEN], inner);
      ConcatUtf8([OPEN] + inner, [CLOSE]);
    }
  }

  lemma GroupKeeps(charset: Charset, inner: Text, codes: RegionCodes)
    requires AreCodes(codes)
    ensures AllKept(charset, inner) ==> AllKept(charset, Group(inner, codes))
    ensures ValidUtf8(inner) ==> ValidUtf8(Group(inner, codes))
  {
    hide ValidUtf8, Join, Split, AllKept;
    var tokens := Split(inner, COMMA);
    var found := CodesOf(tokens, codes);
    if found.Some? {
      CodesPlain(tokens, codes);
      JoinedCodes(charset, found.value);
      Parenthesized(charset, Join(found.value, COMMA));
    } else {
      Parenthesized(charset, inner);
    }
  }

  predicate IsCode(c: Text) {
    |c| == 1 && 0x41 <= c[0] <= 0x5A
  }

  lemma JoinedCodes(charset: Charset, codes: seq<Text>)
    requires codes != [] && forall c :: c in codes ==> IsCode(c)
    ensures AllKept(charset, Join(codes, COMMA)) && ValidUtf8(Join(codes, COMMA))
  {
    forall c | c in codes ensures COMMA !in c && ValidUtf8(c) {
      assert Utf8Step(c) == 1 && c[1..] == [];
    }
    hide Join, Split, ValidUtf8;
    JoinUtf8(codes, COMMA);
    SplitJoin(codes, COMMA);
    var joined := Join(codes, COMMA);
    forall b | b in joined ensures IsKept(charset, b) {
      SplitBytes(joined, COMMA, b);
    }
  }

  lemma {:induction false} CodesPlain(tokens: seq<Text>, codes: RegionCodes)
    requires AreCodes(codes) && CodesOf(tokens, codes).Some?
    ensures forall c :: c in CodesOf(tokens, codes).value ==> IsCode(c)
  {
    if tokens != [] {
      CodesPlain(tokens[1..], codes);
    }
  }

  lemma {:induction false} CompressedKeeps(charset: Charset, s: Text, codes: RegionCodes)
    requires AreCodes(codes)
    ensures AllKept(charset, s) ==> AllKept(charset, Compressed(s, codes))
    ensures ValidUtf8(s) ==> ValidUtf8(Compressed(s, codes))
    ensures s != [] && !IsDots(s) ==> Compressed(s, codes) != [] && !IsDots(Compressed(s, codes))
    decreases |s|
  {
    hide Group, FirstGroup, ValidUtf8, AllKept, IsDots;
    var group := FirstGroup(s);
    if group.Some? {
      var (open, close) := group.value;
      var before, inner, rest := s[..open], s[open + 1..close], s[close + 1..];
      assert s == before + [OPEN] + (inner + [CLOSE] + rest);
      GroupKeeps(charset, inner, codes);
      CompressedKeeps(charset, rest, codes);
      Regrouped(charset, before, inner, rest, Group(inner, codes), Compressed(rest, codes));
      GroupOpens(inner, codes);
      OpenIsNoDot(before, Group(inner, codes), Compressed(rest, codes));
    }
  }

  lemma OpenIsNoDot(before: Text, group: Text, tail: Text)
    requires group != [] && group[0] == OPEN
    ensures before + group + tail != [] && !IsDots(before + group + tail)
  {
    assert (before + group + tail)[|before|] == OPEN;
  }

  lemma GroupOpens(inner: Text, codes: RegionCodes)
    ensures |Group(inner, codes)| > 0 && Group(inner, codes)[0] == OPEN
  {
  }

  lemma Regrouped(charset: Charset, before: Text, inner: Text, rest: Text, group: Text, tail: Text)
    requires AllKept(charset, inner) ==> AllKept(charset, group)
    requires ValidUtf8(inner) ==> ValidUtf8(group)
    requires AllKept(charset, rest) ==> AllKept(charset, tail)
    requires ValidUtf8(rest) ==> ValidUtf8(tail)
    ensures AllKept(charset, before + [OPEN] + (inner + [CLOSE] + rest)) ==> AllKept(charset, before + group + tail)
    ensures ValidUtf8(before + [OPEN] + (inner + [CLOSE] + rest)) ==> ValidUtf8(before + group + tail)
  {
    hide IsKept, ValidUtf8;
    var s := before + [OPEN] + (inner + [CLOSE] + rest);
    assert forall b :: b in before || b in inner || b in rest ==> b in s;
    assert forall b :: b in before + group + tail <==> b in before || b in group || b in tail;
    if ValidUtf8(s) {
      AsciiCuts(before, OPEN, inner + [CLOSE] + rest);
      AsciiCuts(inner, CLOSE, rest);
      ConcatUtf8(before, group);
      ConcatUtf8(before + group, tail);
    }
  }

  /** Text of the charset that names something. */
  ghost predicate IsName(charset: Charset, s: Text) {
    s != [] && !IsDots(s) && AllKept(charset, s) && ValidUtf8(s)
  }

  lemma Extended(charset: Charset, stem: Text, ext: Option<Text>)
    requires stem != [] && AllKept(charset, stem) && ValidUtf8(stem) && (ext.None? ==> !IsDots(stem)) && (ext == Some([]) ==> stem != [DOT])
    requires ext.Some? ==> AllKept(charset, ext.value) && ValidUtf8(ext.value)
    ensures IsName(charset, WithExtension(stem, ext))
  {
    hide ValidUtf8, IsBanned;
    if ext.Some? {
      DotUtf8();
      ConcatUtf8(stem, [DOT]);
      ConcatUtf8(stem + [DOT], ext.value);
      assert forall b :: b in stem + [DOT] + ext.value <==> b in stem || b == DOT || b in ext.value;
      DotKept(charset);
      assert |stem + [DOT] + ext.value| > 2 || (ext.value == [] && |stem| == 1 && (stem + [DOT] + ext.value)[0] == stem[0]);
      assert |stem| == 1 ==> stem == [stem[0]];
    }
  }

  lemma DotUtf8()
    ensures ValidUtf8([DOT]) && ValidUtf8([UNDERSCORE])
  {
  }

  lemma DotKept(charset: Charset)
    ensures IsKept(charset, DOT) && IsKept(charset, UNDERSCORE)
  {
  }

  /** A name's stem and extension are of its charset. */
  lemma PartsKept(charset: Charset, s: Text)
    requires IsName(charset, s)
    ensures SplitExtension(s).0 != [] && AllKept(charset, SplitExtension(s).0) && ValidUtf8(SplitExtension(s).0)
    ensures SplitExtension(s).1.Some? ==> AllKept(charset, SplitExtension(s).1.value) && ValidUtf8(SplitExtension(s).1.value)
  {
    hide IsKept, ValidUtf8;
    StemUtf8(s);
    var (stem, ext) := SplitExtension(s);
    assert forall b :: b in stem ==> b in s;
    assert ext.Some? ==> forall b :: b in ext.value ==> b in s;
  }

  lemma TrimmedIsName(charset: Charset, s: Text)
    requires IsName(charset, s)
    ensures IsName(charset, TrimmedJunk(s))
  {
    hide ValidUtf8, IsKept, SplitExtension;
    PartsKept(charset, s);
    var (stem, ext) := SplitExtension(s);
    TrimUtf8(stem);
    DotUtf8();
    DotKept(charset);
    var trimmed := TrimStem(stem);
    assert forall b :: b in trimmed ==> b in stem;
    var kept := if trimmed == [] then [UNDERSCORE] else trimmed;
    assert kept[|kept| - 1] != DOT;
    Extended(charset, kept, ext);
  }

  lemma {:induction false} TrimUtf8(s: Text)
    requires ValidUtf8(s)
    ensures ValidUtf8(TrimStem(s))
    decreases |s|
  {
    if s != [] && IsJunk(s[|s| - 1]) {
      BoundaryUtf8(s, |s| - 1);
      TrimUtf8(s[..|s| - 1]);
    } else if EndsEmpty(s) {
      assert s[|s| - 2] == s[|s| - 2..][0];
      BoundaryUtf8(s, |s| - 2);
      TrimUtf8(s[..|s| - 2]);
    }
  }

  lemma CappedIsName(charset: Charset, s: Text, max: nat)
    requires IsName(charset, s) && max >= LEAST_NAME_LEN - SUFFIX_RESERVE
    ensures IsName(charset, Capped(s, max)) && |Capped(s, max)| <= max
  {
    hide ValidUtf8, IsKept, SplitExtension, BoundaryAtMost;
    if |s| > max {
      PartsKept(charset, s);
      var (stem, ext) := SplitExtension(s);
      var most := Min(CutBudget(max, ext), |stem|);
      NearBoundary(stem, most);
      var cut := BoundaryAtMost(stem, most);
      BoundaryUtf8(stem, cut);
      assert forall b :: b in stem[..cut] ==> b in stem;
      Extended(charset, stem[..cut], ext);
    }
  }

  /** The one way a rewritten component stops being a name: what is left behind a noise prefix is dots. */
  predicate StripsToDots(component: Text, profile: Profile) {
    var cleaned := Cleaned(component, profile.charset);
    |cleaned| > Budget(profile) && IsDots(StrippedText(cleaned))
  }

  /**
   A good name is constrained into text of the charset that fits the budget, unless
   the source stops first, and the result is a good name exactly when stripping does
   not leave dots, which under the FAT charset it never does.
   */
  lemma ConstrainedIsGood(component: Text, profile: Profile, codes: RegionCodes, r: Text)
    requires GoodComponent(component) && ValidUtf8(component) && profile.maxNameLen >= LEAST_NAME_LEN && AreCodes(codes)
    requires Constrained(component, profile, codes) == Some(r)
    ensures ValidUtf8(r) && AllKept(profile.charset, r) && |r| <= profile.maxNameLen - SUFFIX_RESERVE
    ensures GoodComponent(r) <==> !StripsToDots(component, profile)
    ensures profile.charset.FatSafe? ==> !StripsToDots(component, profile)
  {
    hide ValidUtf8, GoodComponent, StripsToDots, AllKept, ConstrainedText, ConstrainHalts;
    ConstrainedTextIsGood(component, profile, codes);
  }

  lemma ConstrainedTextIsGood(component: Text, profile: Profile, codes: RegionCodes)
    requires GoodComponent(component) && ValidUtf8(component) && profile.maxNameLen >= LEAST_NAME_LEN && AreCodes(codes)
    ensures var r := ConstrainedText(component, profile, codes);
            && ValidUtf8(r) && AllKept(profile.charset, r) && |r| <= profile.maxNameLen - SUFFIX_RESERVE
            && (GoodComponent(r) <==> !StripsToDots(component, profile))
    ensures profile.charset.FatSafe? ==> !StripsToDots(component, profile)
  {
    CleanedIsGood(component, profile.charset);
    var (cleaned, budget) := (Cleaned(component, profile.charset), Budget(profile));
    StrippedKeeps(profile.charset, cleaned);
    hide Cleaned, StrippedText, Compressed, TrimmedJunk, Capped, FittedText, ValidUtf8, IsKept;
    if |cleaned| > budget && IsDots(StrippedText(cleaned)) {
      ShortFits(cleaned, budget, codes);
    } else {
      FittedIsName(profile.charset, cleaned, budget, codes);
      CappedIsName(profile.charset, FittedText(cleaned, budget, codes), budget);
    }
    KeptIsGood(profile.charset, ConstrainedText(component, profile, codes));
  }

  lemma FittedUtf8(component: Text, profile: Profile, codes: RegionCodes)
    requires GoodComponent(component) && ValidUtf8(component) && AreCodes(codes)
    ensures ValidUtf8(FittedText(Cleaned(component, profile.charset), Budget(profile), codes))
  {
    hide Cleaned, StrippedText, Compressed, TrimmedJunk, ValidUtf8, IsKept, AreCodes, AllKept, GoodComponent, IsDots;
    CleanedIsGood(component, profile.charset);
    GoodNotEmpty(Cleaned(component, profile.charset));
    RulesUtf8(Cleaned(component, profile.charset), profile.charset, codes);
  }

  lemma GoodNotEmpty(c: Text)
    requires GoodComponent(c)
    ensures c != []
  {
  }

  lemma RulesUtf8(s: Text, charset: Charset, codes: RegionCodes)
    requires s != [] && ValidUtf8(s) && AreCodes(codes)
    ensures ValidUtf8(StrippedText(s)) && ValidUtf8(Compressed(StrippedText(s), codes)) && ValidUtf8(TrimmedJunk(Compressed(StrippedText(s), codes)))
  {
    hide StrippedText, Compressed, TrimmedJunk, ValidUtf8, AreCodes, AllKept, IsDots;
    StrippedKeeps(charset, s);
    CompressedKeeps(charset, StrippedText(s), codes);
    TrimmedUtf8(Compressed(StrippedText(s), codes));
  }

  lemma TrimmedUtf8(s: Text)
    requires ValidUtf8(s)
    ensures ValidUtf8(TrimmedJunk(s))
  {
    StemUtf8(s);
    hide ValidUtf8, SplitExtension;
    var (stem, ext) := SplitExtension(s);
    TrimUtf8(stem);
    DotUtf8();
    var kept := if TrimStem(stem) == [] then [UNDERSCORE] else TrimStem(stem);
    if ext.Some? {
      ConcatUtf8(kept, [DOT]);
      ConcatUtf8(kept + [DOT], ext.value);
    }
  }

  /** `constrain_component`. */
  method ConstrainComponent(component: Text, profile: Profile, codes: RegionCodes) returns (r: Option<Text>)
    requires GoodComponent(component) && ValidUtf8(component) && AreCodes(codes)
    ensures r == Constrained(component, profile, codes)
  {
    hide Cleaned, FittedText, Capped, ValidUtf8, GoodComponent, AreCodes, NoiseHalts, CapHalts;
    FittedUtf8(component, profile, codes);
    var cleaned := Clean(component, profile.charset);
    var fitted := FitComponent(cleaned, Budget(profile), codes);
    if fitted.None? {
      return None;
    }
    r := CapComponent(fitted.value, Budget(profile));
  }

  /**
   Under a profile with room for names, and every built-in one has it, the source
   stops on exactly the components that are too long and have a character across a
   place where the noise prefix might go on.
   */
  lemma ConstrainHaltsExactly(component: Text, profile: Profile, codes: RegionCodes)
    requires GoodComponent(component) && ValidUtf8(component) && AreCodes(codes) && profile.maxNameLen >= LEAST_NAME_LEN
    ensures Constrained(component, profile, codes).None? <==>
              var cleaned := Cleaned(component, profile.charset);
              |cleaned| > profile.maxNameLen - SUFFIX_RESERVE && CutsCharacter(cleaned)
  {
    FittedUtf8(component, profile, codes);
    CleanedIsGood(component, profile.charset);
    hide Cleaned, FittedText, ValidUtf8, GoodComponent, AreCodes, NoiseHalts, CapHalts, CutsCharacter;
    HaltsExactly(Cleaned(component, profile.charset));
    CapGoesOn(FittedText(Cleaned(component, profile.charset), Budget(profile), codes), Budget(profile));
  }

  /** Katakana, three bytes a character. */
  function Kana(n: nat): (r: Text)
    ensures |r| == 3 * n
  {
    if n == 0 then [] else Kana(n - 1) + [0xE3, 0x83, 0x95]
  }

  lemma KanaUtf8()
    ensures ValidUtf8([0xE3, 0x83, 0x95])
  {
    assert Utf8Step([0xE3, 0x83, 0x95]) == 3;
  }

  lemma {:induction false} KanaPlain(n: nat)
    ensures ValidUtf8(Kana(n)) && (forall b :: b in Kana(n) ==> b >= 0x80)
    ensures n > 1 ==> Kana(n)[4] == 0x83
  {
    hide ValidUtf8;
    if n > 0 {
      KanaPlain(n - 1);
      KanaUtf8();
      ConcatUtf8(Kana(n - 1), [0xE3, 0x83, 0x95]);
    } else {
      NothingUtf8();
    }
  }

  lemma NothingUtf8()
    ensures ValidUtf8([])
  {
  }

  /** `1` and thirty or more of them: a name no built-in flash cart profile survives, nor any other once it is too long. */
  lemma DigitThenKana(n: nat, profile: Profile, codes: RegionCodes)
    requires profile.charset.FatSafe? && profile.maxNameLen >= LEAST_NAME_LEN && AreCodes(codes) && 1 + 3 * n > Budget(profile)
    ensures GoodComponent([0x31] + Kana(n)) && ValidUtf8([0x31] + Kana(n)) && Constrained([0x31] + Kana(n), profile, codes).None?
  {
    var s := [0x31] + Kana(n);
    hide ValidUtf8;
    KanaPlain(n);
    assert n >= 2;
    KanaName(s, n);
    assert s[5] == Kana(n)[4] && s[1] == Kana(n)[0] && Kana(n)[0] in Kana(n);
    hide ValidUtf8, AreCodes, Kana, CutsCharacter, Constrained, Cleaned;
    ConstrainHaltsExactly(s, profile, codes);
    KanaCut(s, n);
  }

  lemma KanaCut(s: Text, n: nat)
    requires n >= 2 && |s| == 3 * n + 1 && s[0] == 0x31 && s[1] >= 0x80 && s[5] == 0x83
    ensures CutsCharacter(s)
  {
    assert Counted(s, 1, 1);
    assert GoesOn(s, 1 + |IN|);
    assert CutsEarly(s, 1, 1);
  }

  lemma KanaName(s: Text, n: nat)
    requires n >= 2 && s == [0x31] + Kana(n) && ValidUtf8(Kana(n)) && forall b :: b in Kana(n) ==> b >= 0x80
    ensures GoodComponent(s) && ValidUtf8(s) && Cleaned(s, FatSafe) == s
  {
    AsciiUtf8(0x31);
    ConcatUtf8([0x31], Kana(n));
    hide ValidUtf8, Kana;
    forall b | b in s ensures b == 0x31 || b >= 0x80 {
    }
    HighPlain(s);
  }

  lemma HighPlain(s: Text)
    requires s != [] && |s| > 2 && forall b :: b in s ==> b == 0x31 || b >= 0x80
    ensures GoodComponent(s) && Cleaned(s, FatSafe) == s
  {
    forall i | 0 <= i < |s| ensures ScrubBanned(s[i]) == s[i] {
      assert s[i] in s;
    }
    assert MapBytes(s, ScrubBanned) == s;
    assert s[|s| - 1] in s && !IsDotOrSpace(s[|s| - 1]);
  }

  lemma KeptIsGood(charset: Charset, s: Text)
    requires AllKept(charset, s)
    ensures GoodComponent(s) <==> s != [] && !IsDots(s)
  {
  }

  lemma ShortFits(s: Text, budget: nat, codes: RegionCodes)
    requires |s| > budget && |StrippedText(s)| <= budget
    ensures Capped(FittedText(s, budget, codes), budget) == StrippedText(s)
  {
    hide StrippedText;
    ShortUncapped(StrippedText(s), budget);
  }

  lemma FittedIsName(charset: Charset, s: Text, budget: nat, codes: RegionCodes)
    requires IsName(charset, s) && AreCodes(codes) && (|s| <= budget || !IsDots(StrippedText(s)))
    ensures IsName(charset, FittedText(s, budget, codes))
  {
    hide StrippedText, Compressed, TrimmedJunk, IsName, AreCodes;
    if |s| > budget {
      StrippedIsName(charset, s);
      CompressedIsName(charset, StrippedText(s), codes);
      TrimmedIsName(charset, Compressed(StrippedText(s), codes));
    }
  }

  lemma CompressedIsName(charset: Charset, s: Text, codes: RegionCodes)
    requires IsName(charset, s) && AreCodes(codes)
    ensures IsName(charset, Compressed(s, codes))
  {
    hide Compressed, AllKept, ValidUtf8, IsDots, AreCodes;
    CompressedKeeps(charset, s, codes);
  }

  lemma StrippedIsName(charset: Charset, s: Text)
    requires IsName(charset, s) && !IsDots(StrippedText(s))
    ensures IsName(charset, StrippedText(s))
  {
    hide StrippedText, AllKept, ValidUtf8, IsDots;
    StrippedKeeps(charset, s);
  }

  lemma ShortUncapped(s: Text, max: nat)
    requires |s| <= max
    ensures Capped(s, max) == s
  {
  }

  lemma StrippedKeeps(charset: Charset, s: Text)
    requires s != []
    ensures StrippedText(s)[|StrippedText(s)| - 1] == s[|s| - 1]
    ensures AllKept(charset, s) ==> AllKept(charset, StrippedText(s))
    ensures ValidUtf8(s) ==> ValidUtf8(StrippedText(s))
  {
    hide ValidUtf8, IsKept, NoiseEnd;
    var end := NoiseEnd(s);
    if end.Some? && end.value < |s| {
      NoiseEndsInSpace(s);
      TailKeeps(charset, s, end.value);
    }
  }

  lemma TailKeeps(charset: Charset, s: Text, n: nat)
    requires 0 < n <= |s| && s[n - 1] == SPACE
    ensures AllKept(charset, s) ==> AllKept(charset, s[n..])
    ensures ValidUtf8(s) ==> ValidUtf8(s[n..])
  {
    hide ValidUtf8, IsKept;
    assert forall b :: b in s[n..] ==> b in s;
    if ValidUtf8(s) {
      assert s == s[..n - 1] + [s[n - 1]] + s[n..];
      AsciiCuts(s[..n - 1], s[n - 1], s[n..]);
    }
  }

  lemma NoiseEndsInSpace(s: Text)
    requires NoiseEnd(s).Some?
    ensures 0 < NoiseEnd(s).value && s[NoiseEnd(s).value - 1] == SPACE
  {
    hide DigitsEnd, Skip;
    var n := NoiseEnd(s).value;
    assert Takes(s, n - |HYPHEN|, HYPHEN);
    TakenEnd(s, n - |HYPHEN|);
  }

  lemma TakenEnd(s: Text, i: nat)
    requires i <= |s| && Takes(s, i, HYPHEN)
    ensures i + 3 <= |s| && s[i + 2] == SPACE
  {
    assert LowText(s[i..i + 3])[2] == LowText(HYPHEN)[2];
    assert s[i..i + 3][2] == s[i + 2];
  }
}
