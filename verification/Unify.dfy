/**
 Content-identity unification (`unify_revision`, `unify_claim`): claims with
 partial hash tuples share identities, and a claim that bridges compatible
 identities merges them.
 */
module Unify {
  import opened Wrappers
  import opened Bytes

  type Digest = seq<byte>
  type Id = nat
  type ClaimId = nat
  type BlobId = nat

  const BASIS_SHA256: int := 3
  const BASIS_SHA1: int := 2
  const BASIS_MD5: int := 1
  const BASIS_CRC_SIZE: int := 0
  const BASIS_DECLARED: int := -1

  /** The partial hash tuple of a claim or an identity. */
  datatype Tuple = Tuple(size: Option<int>, crc32: Option<Digest>, md5: Option<Digest>, sha1: Option<Digest>, sha256: Option<Digest>)

  function Strength(t: Tuple): Option<int> {
    if t.sha256.Some? then Some(BASIS_SHA256)
    else if t.sha1.Some? then Some(BASIS_SHA1)
    else if t.md5.Some? then Some(BASIS_MD5)
    else if t.crc32.Some? && t.size.Some? then Some(BASIS_CRC_SIZE)
    else None
  }

  /** SHA-256 before SHA-1 before MD5 before a CRC with a size; below them nothing is known. */
  ghost function Rank(t: Tuple): int {
    if t.sha256.Some? then 3 else if t.sha1.Some? then 2 else if t.md5.Some? then 1 else if t.crc32.Some? && t.size.Some? then 0 else -1
  }

  lemma StrengthIsRank(t: Tuple)
    ensures Strength(t) == if Rank(t) >= 0 then Some(Rank(t)) else None
  {
  }

  predicate Agree<T(==)>(a: Option<T>, b: Option<T>) {
    a.Some? && b.Some? ==> a == b
  }

  /** No overlapping field disagrees. */
  predicate Compatible(a: Tuple, b: Tuple) {
    Agree(a.size, b.size) && Agree(a.crc32, b.crc32) && Agree(a.md5, b.md5) && Agree(a.sha1, b.sha1) && Agree(a.sha256, b.sha256)
  }

  predicate Same<T(==)>(a: Option<T>, b: Option<T>) {
    a.Some? && a == b
  }

  /** The strongest hash the two share. */
  function MatchGrade(a: Tuple, b: Tuple): Option<int> {
    if Same(a.sha256, b.sha256) then Some(BASIS_SHA256)
    else if Same(a.sha1, b.sha1) then Some(BASIS_SHA1)
    else if Same(a.md5, b.md5) then Some(BASIS_MD5)
    else if Same(a.crc32, b.crc32) && Same(a.size, b.size) then Some(BASIS_CRC_SIZE)
    else None
  }

  function Fill<T>(dst: Option<T>, src: Option<T>): Option<T> {
    if dst.None? then src else dst
  }

  function Absorb(a: Tuple, b: Tuple): Tuple {
    Tuple(Fill(a.size, b.size), Fill(a.crc32, b.crc32), Fill(a.md5, b.md5), Fill(a.sha1, b.sha1), Fill(a.sha256, b.sha256))
  }

  predicate Within<T(==)>(small: Option<T>, big: Option<T>) {
    small.Some? ==> big == small
  }

  /** Everything `small` says, `big` says too. */
  predicate Contains(big: Tuple, small: Tuple) {
    Within(small.size, big.size) && Within(small.crc32, big.crc32) && Within(small.md5, big.md5) && Within(small.sha1, big.sha1) && Within(small.sha256, big.sha256)
  }

  /** Absorbing a compatible tuple is the least tuple that contains both. */
  lemma AbsorbIsUnion(a: Tuple, b: Tuple)
    requires Compatible(a, b)
    ensures Contains(Absorb(a, b), a) && Contains(Absorb(a, b), b)
    ensures forall c :: Contains(c, a) && Contains(c, b) ==> Contains(c, Absorb(a, b))
  {
  }

  lemma ContainsTransitive(a: Tuple, b: Tuple, c: Tuple)
    requires Contains(a, b) && Contains(b, c)
    ensures Contains(a, c)
  {
  }

  /** Two tuples have a common container exactly when they are compatible. */
  lemma CommonContainer(a: Tuple, b: Tuple)
    ensures Compatible(a, b) <==> exists c :: Contains(c, a) && Contains(c, b)
  {
    if Compatible(a, b) {
      AbsorbIsUnion(a, b);
    }
  }

  /** More hashes never make a tuple weaker. */
  lemma StrengthGrows(a: Tuple, b: Tuple)
    requires Contains(a, b) && Strength(b).Some?
    ensures Strength(a).Some? && Strength(a).value >= Strength(b).value
  {
  }

  /** A conflict stays one as tuples grow. */
  lemma ConflictStays(a: Tuple, b: Tuple, c: Tuple)
    requires !Compatible(a, c) && Contains(b, a)
    ensures !Compatible(b, c)
  {
  }

  // ---- The tables ----

  datatype Identity = Identity(tuple: Tuple, strength: int)

  datatype Claim = Claim(tuple: Tuple, identity: Option<Id>)

  /** Identities, claims and identity-to-blob links with their evidence basis. */
  datatype Tables = Tables(identities: map<Id, Identity>, claims: map<ClaimId, Claim>, links: map<(Id, BlobId), int>)

  ghost predicate IdentityOk(i: Identity) {
    Strength(i.tuple) == Some(i.strength)
  }

  ghost predicate ClaimOk(t: Tables, c: Claim) {
    c.identity.Some? ==> c.identity.value in t.identities && Contains(t.identities[c.identity.value].tuple, c.tuple)
  }

  /** A linked claim's hashes are all among its identity's; identities are as strong as they say; links point at live identities. */
  ghost predicate Invariant(t: Tables) {
    && (forall id :: id in t.identities ==> IdentityOk(t.identities[id]))
    && (forall c :: c in t.claims ==> ClaimOk(t, t.claims[c]))
    && forall k :: k in t.links ==> k.0 in t.identities
  }

  /** Claims that share an identity never disagree on a hash. */
  lemma SharedIdentityAgrees(t: Tables, c: ClaimId, d: ClaimId)
    requires Invariant(t) && c in t.claims && d in t.claims
    requires t.claims[c].identity.Some? && t.claims[c].identity == t.claims[d].identity
    ensures Compatible(t.claims[c].tuple, t.claims[d].tuple)
  {
    assert ClaimOk(t, t.claims[c]) && ClaimOk(t, t.claims[d]);
  }

  // ---- Merging one identity into another ----

  function MergedLinks(links: map<(Id, BlobId), int>, survivor: Id, loser: Id): map<(Id, BlobId), int> {
    map k | k in links.Keys + (set j | j in links && j.0 == loser :: (survivor, j.1)) && k.0 != loser ::
      if k in links then links[k] else links[(loser, k.1)]
  }

  function Repointed(claims: map<ClaimId, Claim>, survivor: Id, loser: Id): map<ClaimId, Claim> {
    map c | c in claims :: if claims[c].identity == Some(loser) then claims[c].(identity := Some(survivor)) else claims[c]
  }

  /** Claims and links repoint to the survivor, the loser's row goes. */
  function Merge(t: Tables, survivor: Id, loser: Id): Tables {
    Tables(t.identities - {loser}, Repointed(t.claims, survivor, loser), MergedLinks(t.links, survivor, loser))
  }

  /** A link already on the survivor keeps its basis, so a merge lowers the best evidence exactly when the loser's was better. */
  lemma MergeKeepsEvidenceUnless(t: Tables, survivor: Id, loser: Id, b: BlobId)
    requires survivor != loser && ((survivor, b) in t.links || (loser, b) in t.links)
    ensures (survivor, b) in Merge(t, survivor, loser).links
    ensures var now := Merge(t, survivor, loser).links[(survivor, b)];
            (((survivor, b) in t.links && now < t.links[(survivor, b)]) || ((loser, b) in t.links && now < t.links[(loser, b)]))
              <==> (survivor, b) in t.links && (loser, b) in t.links && t.links[(survivor, b)] < t.links[(loser, b)]
  {
  }

  // ---- How tables evolve ----

  /**
   Nothing is lost from `t` to `u`: every identity lives on as `m` of it with at
   least its hashes, the claims stay and stay linked, every link is carried over.
   */
  ghost predicate Evolves(t: Tables, u: Tables, m: map<Id, Id>) {
    && m.Keys == t.identities.Keys
    && (forall id :: id in t.identities ==> m[id] in u.identities && Contains(u.identities[m[id]].tuple, t.identities[id].tuple))
    && u.claims.Keys == t.claims.Keys
    && (forall c :: c in t.claims ==> u.claims[c].tuple == t.claims[c].tuple)
    && (forall c :: c in t.claims && t.claims[c].identity.Some? && t.claims[c].identity.value in m ==>
          u.claims[c].identity == Some(m[t.claims[c].identity.value]))
    && forall k :: k in t.links && k.0 in m ==> (m[k.0], k.1) in u.links
  }

  function Stay(t: Tables): map<Id, Id> {
    map id | id in t.identities :: id
  }

  function Then(m: map<Id, Id>, n: map<Id, Id>): map<Id, Id> {
    map id | id in m && m[id] in n :: n[m[id]]
  }

  lemma EvolvesThen(t: Tables, u: Tables, v: Tables, m: map<Id, Id>, n: map<Id, Id>)
    requires Invariant(t) && Evolves(t, u, m) && Evolves(u, v, n)
    ensures Evolves(t, v, Then(m, n))
  {
    var r := Then(m, n);
    assert r.Keys == t.identities.Keys;
    forall id | id in t.identities ensures r[id] in v.identities && Contains(v.identities[r[id]].tuple, t.identities[id].tuple) {
      ContainsTransitive(v.identities[n[m[id]]].tuple, u.identities[m[id]].tuple, t.identities[id].tuple);
    }
    forall k | k in t.links && k.0 in r ensures (r[k.0], k.1) in v.links {
      assert (m[k.0], k.1) in u.links;
    }
  }

  function WithRow(t: Tables, id: Id, i: Identity): Tables {
    t.(identities := t.identities[id := i])
  }

  /** Raising a row to a larger tuple. */
  lemma RaiseKeeps(t: Tables, id: Id, tuple: Tuple)
    requires Invariant(t) && id in t.identities && Contains(tuple, t.identities[id].tuple)
    ensures Strength(tuple).Some?
    ensures Invariant(WithRow(t, id, Identity(tuple, Strength(tuple).value)))
    ensures Evolves(t, WithRow(t, id, Identity(tuple, Strength(tuple).value)), Stay(t))
  {
    assert IdentityOk(t.identities[id]);
    StrengthGrows(tuple, t.identities[id].tuple);
    hide Strength;
    var u := WithRow(t, id, Identity(tuple, Strength(tuple).value));
    forall c | c in u.claims ensures ClaimOk(u, u.claims[c]) {
      assert ClaimOk(t, t.claims[c]);
      if t.claims[c].identity == Some(id) {
        ContainsTransitive(tuple, t.identities[id].tuple, t.claims[c].tuple);
      }
    }
  }

  /** A new row, of a new identity. */
  lemma MintKeeps(t: Tables, id: Id, tuple: Tuple)
    requires Invariant(t) && id !in t.identities && Strength(tuple).Some?
    ensures Invariant(WithRow(t, id, Identity(tuple, Strength(tuple).value)))
    ensures Evolves(t, WithRow(t, id, Identity(tuple, Strength(tuple).value)), Stay(t))
  {
    hide Strength, Contains;
    var u := WithRow(t, id, Identity(tuple, Strength(tuple).value));
    forall c | c in u.claims ensures ClaimOk(u, u.claims[c]) {
      assert ClaimOk(t, t.claims[c]);
    }
    forall x ensures Contains(x, x) {
      SelfContained(x);
    }
  }

  lemma SelfContained(t: Tuple)
    ensures Contains(t, t)
  {
  }

  /** Merging an identity into one that contains it. */
  lemma MergeKeeps(t: Tables, survivor: Id, loser: Id)
    requires Invariant(t) && survivor in t.identities && loser in t.identities && survivor != loser
    requires Contains(t.identities[survivor].tuple, t.identities[loser].tuple)
    ensures Invariant(Merge(t, survivor, loser))
    ensures Evolves(t, Merge(t, survivor, loser), Stay(t)[loser := survivor])
  {
    hide Strength, Contains;
    var u, m := Merge(t, survivor, loser), Stay(t)[loser := survivor];
    forall x ensures Contains(x, x) {
      SelfContained(x);
    }
    forall c | c in u.claims ensures ClaimOk(u, u.claims[c]) {
      assert ClaimOk(t, t.claims[c]);
      if t.claims[c].identity == Some(loser) {
        ContainsTransitive(t.identities[survivor].tuple, t.identities[loser].tuple, t.claims[c].tuple);
      }
    }
    forall k | k in t.links && k.0 in m ensures (m[k.0], k.1) in u.links {
      if k.0 == loser {
        assert (survivor, k.1) in (set j | j in t.links && j.0 == loser :: (survivor, j.1));
      }
    }
  }

  // ---- Candidates ----

  datatype Column = Sha256 | Sha1 | Md5 | Crc32

  function Get(t: Tuple, c: Column): Option<Digest> {
    match c
    case Sha256 => t.sha256
    case Sha1 => t.sha1
    case Md5 => t.md5
    case Crc32 => t.crc32
  }

  /** An identity a claim may share: no conflict, and some hash in common. */
  predicate Qualifies(tuple: Tuple, other: Tuple) {
    Compatible(tuple, other) && MatchGrade(tuple, other).Some?
  }

  /**
   What the comment over the candidate filter asks for: a match on something as strong
   as the best the weaker of the two has, so that strong hashes match on a strong hash.
   */
  ghost predicate Promised(a: Tuple, b: Tuple) {
    var grade := MatchGrade(a, b);
    Compatible(a, b) && grade.Some? && Strength(a).Some? && Strength(b).Some? && (grade.value >= Strength(a).value || grade.value >= Strength(b).value)
  }

  /**
   A claim may share an identity exactly when some tuple has all the two know and they
   have a strong hash in common, or both CRC and size.
   */
  lemma QualifiesExactly(a: Tuple, b: Tuple)
    ensures Qualifies(a, b) <==>
              && (exists c :: Contains(c, a) && Contains(c, b))
              && ((a.sha256.Some? && a.sha256 == b.sha256) || (a.sha1.Some? && a.sha1 == b.sha1) || (a.md5.Some? && a.md5 == b.md5)
                  || (a.crc32.Some? && a.size.Some? && a.crc32 == b.crc32 && a.size == b.size))
  {
    CommonContainer(a, b);
  }

  /** The tuple has the hash a basis stands for. */
  predicate Carries(t: Tuple, basis: int) {
    if basis == BASIS_SHA256 then t.sha256.Some?
    else if basis == BASIS_SHA1 then t.sha1.Some?
    else if basis == BASIS_MD5 then t.md5.Some?
    else t.crc32.Some? && t.size.Some?
  }

  /** The filter lets through everything that was promised, and more exactly when neither tuple's strongest hash is known to the other. */
  lemma PromisedExactly(a: Tuple, b: Tuple)
    ensures Promised(a, b) ==> Qualifies(a, b)
    ensures Qualifies(a, b) ==> Strength(a).Some? && Strength(b).Some?
    ensures Qualifies(a, b) ==> (Promised(a, b) <==> Carries(b, Strength(a).value) || Carries(a, Strength(b).value))
  {
  }

  ghost predicate NoRepeats(ids: seq<Id>) {
    forall i, j :: 0 <= i < j < |ids| ==> ids[i] != ids[j]
  }

  ghost predicate Shares(tuple: Tuple, other: Tuple, c: Column) {
    Get(tuple, c).Some? && Get(other, c) == Get(tuple, c)
  }

  /** Rows whose column holds the digest, in whatever order the table gives them. */
  method Lookup(rows: map<Id, Identity>, c: Column, digest: Digest) returns (ids: seq<Id>)
    ensures forall id :: id in ids <==> id in rows && Get(rows[id].tuple, c) == Some(digest)
  {
    var todo := rows.Keys;
    ids := [];
    while todo != {}
      invariant todo <= rows.Keys
      invariant forall id :: id in ids <==> id in rows && id !in todo && Get(rows[id].tuple, c) == Some(digest)
      decreases |todo|
    {
      var id :| id in todo;
      todo := todo - {id};
      if Get(rows[id].tuple, c) == Some(digest) {
        ids := ids + [id];
      }
    }
  }

  /** Every identity sharing any of the claim's hashes, once each. */
  method Candidates(rows: map<Id, Identity>, tuple: Tuple) returns (ids: seq<Id>)
    ensures NoRepeats(ids)
    ensures forall id :: id in ids <==> id in rows && exists c :: Shares(tuple, rows[id].tuple, c)
  {
    var lookups := [Sha256, Sha1, Md5, Crc32];
    ids := [];
    var seen: set<Id> := {};
    for n := 0 to 4
      invariant NoRepeats(ids) && forall id :: id in ids <==> id in seen
      invariant forall id :: id in seen <==> id in rows && exists k :: 0 <= k < n && Shares(tuple, rows[id].tuple, lookups[k])
    {
      var digest := Get(tuple, lookups[n]);
      if digest.Some? {
        var found := Lookup(rows, lookups[n], digest.value);
        for k := 0 to |found|
          invariant NoRepeats(ids) && forall id :: id in ids <==> id in seen
          invariant forall id :: id in seen <==> id in found[..k] || (id in rows && exists k :: 0 <= k < n && Shares(tuple, rows[id].tuple, lookups[k]))
        {
          assert found[..k + 1] == found[..k] + [found[k]];
          if found[k] !in seen {
            seen := seen + {found[k]};
            ids := ids + [found[k]];
          }
        }
        assert found[..|found|] == found;
      }
    }
    forall id, c | id in rows && Shares(tuple, rows[id].tuple, c) ensures id in ids {
      assert c == lookups[match c case Sha256 => 0 case Sha1 => 1 case Md5 => 2 case Crc32 => 3];
    }
  }

  /** The identities that qualify, once each. */
  method Qualifying(rows: map<Id, Identity>, tuple: Tuple) returns (ids: seq<Id>)
    ensures NoRepeats(ids)
    ensures forall id :: id in ids <==> id in rows && Qualifies(tuple, rows[id].tuple)
  {
    var candidates := Candidates(rows, tuple);
    ids := [];
    for k := 0 to |candidates|
      invariant NoRepeats(ids)
      invariant forall id :: id in ids <==> id in candidates[..k] && Qualifies(tuple, rows[id].tuple)
    {
      assert candidates[..k + 1] == candidates[..k] + [candidates[k]];
      if Qualifies(tuple, rows[candidates[k]].tuple) {
        assert candidates[k] !in candidates[..k];
        ids := ids + [candidates[k]];
      }
    }
    assert candidates[..|candidates|] == candidates;
    forall id | id in rows && Qualifies(tuple, rows[id].tuple) ensures id in candidates {
      GradeShares(tuple, rows[id].tuple);
    }
  }

  /** A grade comes from a column both have. */
  lemma GradeShares(tuple: Tuple, other: Tuple)
    requires MatchGrade(tuple, other).Some?
    ensures exists c :: Shares(tuple, other, c)
  {
    var c := if Same(tuple.sha256, other.sha256) then Sha256 else if Same(tuple.sha1, other.sha1) then Sha1
             else if Same(tuple.md5, other.md5) then Md5 else Crc32;
    assert Shares(tuple, other, c);
  }

  /** `a` is preferred as survivor: stronger, or as strong and older. */
  predicate Prefers(rows: map<Id, Identity>, a: Id, b: Id)
    requires a in rows && b in rows
  {
    var sa, sb := Strength(rows[a].tuple), Strength(rows[b].tuple);
    var x, y := if sa.Some? then sa.value else -1, if sb.Some? then sb.value else -1;
    x > y || (x == y && a < b)
  }

  method Survivor(rows: map<Id, Identity>, ids: seq<Id>) returns (best: Id)
    requires ids != [] && forall id :: id in ids ==> id in rows
    ensures best in ids && forall id :: id in ids && id != best ==> Prefers(rows, best, id)
  {
    best := ids[0];
    for k := 1 to |ids|
      invariant best in ids[..k] && forall id :: id in ids[..k] && id != best ==> Prefers(rows, best, id)
    {
      assert ids[..k + 1] == ids[..k] + [ids[k]];
      if Prefers(rows, ids[k], best) {
        best := ids[k];
      }
    }
    assert ids[..|ids|] == ids;
  }

  /** An id past every one in use. */
  lemma {:induction false} FreshId(ids: set<Id>) returns (next: Id)
    ensures forall id :: id in ids ==> id < next
  {
    next := 0;
    if ids != {} {
      var id :| id in ids;
      var rest := FreshId(ids - {id});
      next := if id < rest then rest else id + 1;
      forall x | x in ids ensures x < next {
        assert x == id || x in ids - {id};
      }
    }
  }

  // ---- Linking ----

  /** What an alias row's digest is of: the blob's bytes, or the disk inside a CHD, declared or computed. */
  datatype Algo = Hashed(column: Column) | ChdSha1 | ChdSha1Verified

  datatype Alias = Alias(algo: Algo, digest: Digest, blob: BlobId)

  function Basis(links: map<(Id, BlobId), int>, k: (Id, BlobId)): Option<int> {
    if k in links then Some(links[k]) else None
  }

  function Best(a: Option<int>, b: Option<int>): Option<int> {
    if a.None? then b else if b.None? || a.value >= b.value then a else b
  }

  /** The strongest hash, by which candidates are looked up. */
  function Seed(t: Tuple): Option<(Column, Digest)> {
    if t.sha256.Some? then Some((Sha256, t.sha256.value))
    else if t.sha1.Some? then Some((Sha1, t.sha1.value))
    else if t.md5.Some? then Some((Md5, t.md5.value))
    else if t.crc32.Some? then Some((Crc32, t.crc32.value))
    else None
  }

  function GradeOf(t: Tuple): int {
    if Strength(t).Some? then Strength(t).value else BASIS_CRC_SIZE
  }

  /** `blob_matches`: the blob has the size and every hash. */
  predicate BlobMatches(t: Tuple, blob: BlobId, aliases: set<Alias>, sizes: map<BlobId, int>) {
    && (t.size.Some? ==> blob in sizes && sizes[blob] == t.size.value)
    && (t.crc32.Some? ==> Alias(Hashed(Crc32), t.crc32.value, blob) in aliases)
    && (t.md5.Some? ==> Alias(Hashed(Md5), t.md5.value, blob) in aliases)
    && (t.sha1.Some? ==> Alias(Hashed(Sha1), t.sha1.value, blob) in aliases)
    && (t.sha256.Some? ==> Alias(Hashed(Sha256), t.sha256.value, blob) in aliases)
  }

  /** The best evidence that `blob` is the content with these hashes. */
  function Evidence(t: Tuple, blob: BlobId, aliases: set<Alias>, sizes: map<BlobId, int>): Option<int> {
    var matched := if Seed(t).Some? && BlobMatches(t, blob, aliases, sizes) then Some(GradeOf(t)) else None;
    Best(matched, if t.sha1.Some? && t.size.None? then DiskEvidence(t.sha1.value, blob, aliases) else None)
  }

  /** For a disk: a CHD's header declares its SHA-1, or decompressing the CHD gave it. */
  function DiskEvidence(sha1: Digest, blob: BlobId, aliases: set<Alias>): Option<int> {
    Best(if Alias(ChdSha1, sha1, blob) in aliases then Some(BASIS_DECLARED) else None,
         if Alias(ChdSha1Verified, sha1, blob) in aliases then Some(BASIS_SHA1) else None)
  }

  /** The evidence of one's own bytes and that of a disk, one after the other. */
  lemma EvidenceInTurn(a: Option<int>, t: Tuple, blob: BlobId, aliases: set<Alias>, sizes: map<BlobId, int>)
    requires Seed(t).Some?
    ensures Best(a, None) == a
    ensures var matched := Best(a, if BlobMatches(t, blob, aliases, sizes) then Some(GradeOf(t)) else None);
      Best(a, Evidence(t, blob, aliases, sizes)) == if t.sha1.Some? && t.size.None? then Best(matched, DiskEvidence(t.sha1.value, blob, aliases)) else matched
  {
    hide BlobMatches, GradeOf, DiskEvidence, Seed;
  }

  lemma NoSeed(a: Option<int>, t: Tuple, blob: BlobId, aliases: set<Alias>, sizes: map<BlobId, int>)
    requires Seed(t).None?
    ensures Best(a, Evidence(t, blob, aliases, sizes)) == Best(a, None) == a
  {
  }

  function Found(t: Tables, ids: seq<Id>, aliases: set<Alias>, sizes: map<BlobId, int>, k: (Id, BlobId)): Option<int> {
    if k.0 in ids && k.0 in t.identities then Evidence(t.identities[k.0].tuple, k.1, aliases, sizes) else None
  }

  /** A blob that matches is found by the seed. */
  lemma SeedMatches(t: Tuple, aliases: set<Alias>, sizes: map<BlobId, int>)
    requires Seed(t).Some?
    ensures forall b :: BlobMatches(t, b, aliases, sizes) ==> Alias(Hashed(Seed(t).value.0), Seed(t).value.1, b) in aliases
  {
  }

  lemma LinkKeeps(t: Tables, k: (Id, BlobId), basis: int)
    requires Invariant(t) && k.0 in t.identities
    ensures Invariant(t.(links := t.links[k := basis]))
  {
    hide Strength, Contains;
    var u := t.(links := t.links[k := basis]);
    assert forall c :: c in u.claims ==> ClaimOk(t, t.claims[c]) && ClaimOk(u, u.claims[c]);
  }

  method AliasLookup(aliases: set<Alias>, algo: Algo, digest: Digest) returns (blobs: seq<BlobId>)
    ensures forall b :: b in blobs <==> Alias(algo, digest, b) in aliases
  {
    var todo := aliases;
    blobs := [];
    while todo != {}
      invariant todo <= aliases
      invariant forall b :: b in blobs <==> Alias(algo, digest, b) in aliases - todo
      decreases |todo|
    {
      var a :| a in todo;
      todo := todo - {a};
      if a.algo == algo && a.digest == digest {
        blobs := blobs + [a.blob];
      }
    }
  }

  method Matching(blobs: seq<BlobId>, tuple: Tuple, aliases: set<Alias>, sizes: map<BlobId, int>) returns (r: seq<BlobId>)
    ensures forall b :: b in r <==> b in blobs && BlobMatches(tuple, b, aliases, sizes)
  {
    r := [];
    for n := 0 to |blobs|
      invariant forall b :: b in r <==> b in blobs[..n] && BlobMatches(tuple, b, aliases, sizes)
    {
      assert blobs[..n + 1] == blobs[..n] + [blobs[n]];
      if BlobMatches(tuple, blobs[n], aliases, sizes) {
        r := r + [blobs[n]];
      }
    }
    assert blobs[..|blobs|] == blobs;
  }

  // ---- Unifying ----

  class Catalog {
    var t: Tables

    ghost predicate Valid()
      reads this
    {
      Invariant(t)
    }

    constructor ()
      ensures Valid() && t == Tables(map[], map[], map[])
    {
      t := Tables(map[], map[], map[]);
    }

    /** A claim read from a dat, not linked yet. */
    method AddClaim(c: ClaimId, tuple: Tuple)
      requires Valid() && c !in t.claims
      modifies this
      ensures Valid() && t == old(t).(claims := old(t).claims[c := Claim(tuple, None)])
    {
      t := t.(claims := t.claims[c := Claim(tuple, None)]);
    }

    /** Merge the other qualifying identities into the survivor while no hash conflicts; the row itself is written at the end. */
    method MergeInto(survivor: Id, tuple0: Tuple, losers: seq<Id>) returns (tuple: Tuple, ghost m: map<Id, Id>)
      requires survivor in t.identities && Strength(tuple0).Some?
      requires Invariant(WithRow(t, survivor, Identity(tuple0, Strength(tuple0).value)))
      requires NoRepeats(losers) && survivor !in losers && forall id :: id in losers ==> id in t.identities
      modifies this
      ensures Contains(tuple, tuple0)
      ensures Merging(old(t), t, survivor, tuple0, tuple, losers, |losers|, m)
    {
      hide *;
      tuple, m := tuple0, Stay(t);
      MergingStarts(t, survivor, tuple0, losers);
      for k := 0 to |losers|
        invariant Merging(old(t), t, survivor, tuple0, tuple, losers, k, m)
      {
        var loser := losers[k];
        LoserLives(old(t), t, survivor, tuple0, tuple, losers, k, m);
        if Compatible(tuple, t.identities[loser].tuple) {
          MergingTakes(old(t), t, survivor, tuple0, tuple, losers, k, m);
          tuple := Absorb(tuple, t.identities[loser].tuple);
          m := m[loser := survivor];
          t := Merge(t, survivor, loser);
        } else {
          MergingSkips(old(t), t, survivor, tuple0, tuple, losers, k, m);
        }
      }
      MergingContains(old(t), t, survivor, tuple0, tuple, losers, |losers|, m);
    }

    /**
     `unify_claim`: the identity for a claim's tuple, found, merged or minted.
     `m` says what became of each identity.
     */
    method UnifyClaim(tuple: Tuple) returns (r: Option<Id>, ghost m: map<Id, Id>)
      requires Valid()
      modifies this
      ensures Valid() && Evolves(old(t), t, m)
      ensures r.Some? <==> Strength(tuple).Some?
      ensures r.None? ==> t == old(t)
      ensures NoLinksAppear(old(t), t)
      ensures r.Some? ==> r.value in t.identities && Contains(t.identities[r.value].tuple, tuple)
      ensures r.Some? ==> MergedFor(old(t), t, tuple, r.value, m)
    {
      hide Invariant, Evolves, Strength, Contains, Compatible, MergedFor, Qualifies, Absorb, Merging, Without, NoRepeats, NoLinksAppear, Stay, WithRow, Prefers, IsStronger;
      m := Stay(t);
      EvolvesNot(t);
      SameLinks(t);
      if Strength(tuple).None? {
        return None, m;
      }
      var qualifying := Qualifying(t.identities, tuple);
      ghost var before := t;
      if qualifying == [] {
        var id := PickFresh(t.identities);
        MintKeeps(t, id, tuple);
        t := WithRow(t, id, Identity(tuple, Strength(tuple).value));
        MintedOnly(before, t, tuple, id, qualifying);
        return Some(id), m;
      }
      var survivor := Survivor(t.identities, qualifying);
      forall x | x in qualifying && x != survivor ensures IsStronger(t.identities, survivor, x) {
        PrefersStronger(t.identities, survivor, x);
      }
      var absorbed := Absorb(t.identities[survivor].tuple, tuple);
      AbsorbQualifying(t, survivor, tuple);
      var losers := Without(qualifying, survivor);
      WithoutOnce(qualifying, survivor);
      RaiseKeeps(t, survivor, absorbed);
      var final, n := MergeInto(survivor, absorbed, losers);
      ghost var merged := t;
      FinalStrength(before, t, survivor, absorbed, final, losers, n);
      t := WithRow(t, survivor, Identity(final, Strength(final).value));
      m := n;
      Finished(before, merged, tuple, survivor, qualifying, losers, absorbed, final, m);
      return Some(survivor), m;
    }

    /** `link` for each of some blobs: a link keeps the better of its bases. */
    method LinkAll(id: Id, blobs: seq<BlobId>, basis: int)
      requires Valid() && id in t.identities
      modifies this
      ensures Valid() && t == old(t).(links := t.links)
      ensures forall k :: Basis(t.links, k) == Best(Basis(old(t).links, k), if k.0 == id && k.1 in blobs then Some(basis) else None)
    {
      hide Invariant;
      for n := 0 to |blobs|
        invariant Valid() && t == old(t).(links := t.links)
        invariant forall k :: Basis(t.links, k) == Best(Basis(old(t).links, k), if k.0 == id && k.1 in blobs[..n] then Some(basis) else None)
      {
        assert blobs[..n + 1] == blobs[..n] + [blobs[n]];
        var k := (id, blobs[n]);
        LinkKeeps(t, k, if k in t.links && t.links[k] > basis then t.links[k] else basis);
        t := t.(links := t.links[k := if k in t.links && t.links[k] > basis then t.links[k] else basis]);
      }
      assert blobs[..|blobs|] == blobs;
    }

    /**
     `link_identities_to_blobs`: a blob is linked to an identity when the aliases give
     evidence for it, with the best there is; linking again never lowers any.
     */
    method LinkIdentities(ids: seq<Id>, aliases: set<Alias>, sizes: map<BlobId, int>)
      requires Valid()
      modifies this
      ensures Valid() && t == old(t).(links := t.links)
      ensures forall k :: Basis(t.links, k) == Best(Basis(old(t).links, k), Found(old(t), ids, aliases, sizes, k))
      ensures forall k :: k in old(t).links ==> k in t.links && t.links[k] >= old(t).links[k]
    {
      hide Invariant, Evidence;
      for n := 0 to |ids|
        invariant Valid() && t == old(t).(links := t.links)
        invariant forall k :: Basis(t.links, k) == Best(Basis(old(t).links, k), Found(old(t), ids[..n], aliases, sizes, k))
      {
        assert ids[..n + 1] == ids[..n] + [ids[n]];
        if ids[n] in t.identities {
          LinkOne(ids[n], aliases, sizes);
        }
      }
      assert ids[..|ids|] == ids;
      assert forall k :: k in old(t).links ==> Basis(t.links, k).Some? && Basis(old(t).links, k).Some?;
    }

    method LinkOne(id: Id, aliases: set<Alias>, sizes: map<BlobId, int>)
      requires Valid() && id in t.identities
      modifies this
      ensures Valid() && t == old(t).(links := t.links)
      ensures forall k :: Basis(t.links, k) == Best(Basis(old(t).links, k), if k.0 == id then Evidence(old(t).identities[id].tuple, k.1, aliases, sizes) else None)
    {
      hide Invariant, BlobMatches, GradeOf, DiskEvidence, Best, Basis, Evidence, Seed;
      ghost var links := t.links;
      var tuple := t.identities[id].tuple;
      if Seed(tuple).None? {
        forall k ensures Basis(t.links, k) == Best(Basis(t.links, k), if k.0 == id then Evidence(tuple, k.1, aliases, sizes) else None) {
          NoSeed(Basis(t.links, k), tuple, k.1, aliases, sizes);
        }
        return;
      }
      SeedMatches(tuple, aliases, sizes);
      var (column, digest) := Seed(tuple).value;
      var seeded := AliasLookup(aliases, Hashed(column), digest);
      var matching := Matching(seeded, tuple, aliases, sizes);
      LinkAll(id, matching, GradeOf(tuple));
      if tuple.sha1.Some? && tuple.size.None? {
        LinkDisk(id, tuple.sha1.value, aliases);
      }
      forall k ensures Basis(t.links, k) == Best(Basis(links, k), if k.0 == id then Evidence(tuple, k.1, aliases, sizes) else None) {
        EvidenceInTurn(Basis(links, k), tuple, k.1, aliases, sizes);
      }
    }

    method LinkDisk(id: Id, sha1: Digest, aliases: set<Alias>)
      requires Valid() && id in t.identities
      modifies this
      ensures Valid() && t == old(t).(links := t.links)
      ensures forall k :: Basis(t.links, k) == Best(Basis(old(t).links, k), if k.0 == id then DiskEvidence(sha1, k.1, aliases) else None)
    {
      hide Invariant;
      var declared := AliasLookup(aliases, ChdSha1, sha1);
      LinkAll(id, declared, BASIS_DECLARED);
      var computed := AliasLookup(aliases, ChdSha1Verified, sha1);
      LinkAll(id, computed, BASIS_SHA1);
    }

    /** Link claim `c` to an identity that contains its tuple. */
    method SetIdentity(c: ClaimId, id: Id)
      requires Valid() && c in t.claims && t.claims[c].identity.None?
      requires id in t.identities && Contains(t.identities[id].tuple, t.claims[c].tuple)
      modifies this
      ensures Valid() && t == old(t).(claims := old(t).claims[c := old(t).claims[c].(identity := Some(id))])
      ensures Evolves(old(t), t, Stay(old(t)))
    {
      hide Contains;
      forall x ensures Contains(x, x) {
        SelfContained(x);
      }
      ghost var before := t;
      t := t.(claims := t.claims[c := t.claims[c].(identity := Some(id))]);
      forall d | d in t.claims ensures ClaimOk(t, t.claims[d]) {
        assert d != c ==> ClaimOk(before, before.claims[d]);
      }
    }

    /**
     `unify_revision`: every claim of a revision that is not linked yet, in order, each
     unified with what is there at its turn and linked to the identity it then has; those
     identities, and no others, are returned.
     */
    method UnifyRevision(rows: seq<ClaimId>) returns (touched: set<Id>, ghost m: map<Id, Id>, ghost run: seq<Turn>)
      requires Valid() && NoRepeats(rows) && forall c :: c in rows ==> c in t.claims && t.claims[c].identity.None?
      modifies this
      ensures Valid() && Evolves(old(t), t, m)
      ensures forall c :: c in rows ==> c in t.claims && (t.claims[c].identity.Some? <==> Strength(t.claims[c].tuple).Some?)
      ensures forall c :: c in rows && t.claims[c].identity.Some? ==> t.claims[c].identity.value in touched
      ensures forall c :: c in t.claims && c !in rows && old(t).claims[c].identity.None? ==> t.claims[c] == old(t).claims[c]
      ensures |run| == |rows| && Follows(run, old(t), t) && (forall k :: 0 <= k < |rows| ==> run[k].claim == rows[k] && Unifies(run[k]))
      ensures forall id :: id in touched <==> exists k :: 0 <= k < |run| && run[k].id == Some(id)
    {
      hide Invariant, Evolves, SoFar, Then, Unifies, MergedFor;
      touched, m, run := {}, Stay(t), [];
      EvolvesNot(t);
      SoFarStarts(t, rows);
      for k := 0 to |rows|
        invariant Valid() && Evolves(old(t), t, m) && SoFar(old(t), t, rows, k, touched, run)
      {
        ghost var before := t;
        NextIsFree(old(t), t, rows, k, touched, run);
        var id, turn, n := UnifyAndLink(rows[k]);
        EvolvesThen(old(t), before, t, m, n);
        m := Then(m, n);
        SoFarNext(old(t), turn, rows, k, touched, run);
        touched := if id.Some? then touched + {id.value} else touched;
        run := run + [turn];
      }
      SoFarEnds(old(t), t, rows, touched, run);
      ClaimsCarried(old(t), t, m);
    }

    /** One claim unified and linked. */
    method UnifyAndLink(c: ClaimId) returns (id: Option<Id>, ghost turn: Turn, ghost n: map<Id, Id>)
      requires Valid() && c in t.claims && t.claims[c].identity.None?
      modifies this
      ensures Valid() && Evolves(old(t), t, n)
      ensures turn.claim == c && turn.id == id && turn.before == old(t) && turn.after == t && Unifies(turn)
      ensures Invariant(turn.unified) && NoLinksAppear(old(t), turn.unified) && Evolves(old(t), turn.unified, turn.m)
    {
      hide Invariant, Evolves, Contains, MergedFor, Then, NoLinksAppear, Strength;
      ghost var before := t;
      var tuple := t.claims[c].tuple;
      StrengthIsRank(tuple);
      id, n := UnifyClaim(tuple);
      turn := Turn(c, id, before, t, n, t);
      StillFree(before, t, c, n);
      if id.Some? {
        ghost var linked := t;
        SetIdentity(c, id.value);
        EvolvesThen(before, linked, t, n, Stay(linked));
        n := Then(n, Stay(linked));
        turn := turn.(after := t);
      }
    }
  }

  /** One claim's turn: the tables before, when it is unified and when it is linked, and what became of the identities. */
  datatype Turn = Turn(claim: ClaimId, id: Option<Id>, before: Tables, unified: Tables, m: map<Id, Id>, after: Tables)

  /** Unified as its hashes ask and linked to that identity; without a usable hash nothing happens. */
  ghost predicate Unifies(x: Turn) {
    && x.claim in x.before.claims && (x.id.Some? <==> Rank(x.before.claims[x.claim].tuple) >= 0)
    && if x.id.None? then x.unified == x.before && x.after == x.before
       else && MergedFor(x.before, x.unified, x.before.claims[x.claim].tuple, x.id.value, x.m) && Evolves(x.before, x.unified, x.m)
            && Contains(x.unified.identities[x.id.value].tuple, x.before.claims[x.claim].tuple)
            && x.claim in x.unified.claims
            && x.after == x.unified.(claims := x.unified.claims[x.claim := x.unified.claims[x.claim].(identity := x.id)])
  }

  /** The turns lead from `t` to `u`. */
  ghost predicate Follows(run: seq<Turn>, t: Tables, u: Tables) {
    if run == [] then t == u
    else run[|run| - 1].after == u && Follows(run[..|run| - 1], t, run[|run| - 1].before)
  }

  /** A claim that is not linked keeps its hashes and stays so. */
  lemma StillFree(t: Tables, u: Tables, c: ClaimId, m: map<Id, Id>)
    requires Evolves(t, u, m) && NoLinksAppear(t, u) && c in t.claims && t.claims[c].identity.None?
    ensures c in u.claims && u.claims[c] == t.claims[c]
  {
    hide Contains;
  }

  /** The first `k` claims are unified, the others not touched yet. */
  ghost predicate SoFar(t0: Tables, t: Tables, rows: seq<ClaimId>, k: nat, touched: set<Id>, run: seq<Turn>) {
    && k <= |rows| && |run| == k && Follows(run, t0, t) && (forall j :: 0 <= j < k ==> run[j].claim == rows[j] && Unifies(run[j]))
    && (forall id :: id in touched <==> exists j :: 0 <= j < k && run[j].id == Some(id))
    && (forall j :: 0 <= j < |rows| ==> rows[j] in t.claims)
    && (forall j :: k <= j < |rows| ==> t.claims[rows[j]].identity.None?)
    && (forall j :: 0 <= j < k ==> (t.claims[rows[j]].identity.Some? <==> Strength(t.claims[rows[j]].tuple).Some?))
    && LinksTouched(t, rows[..k], touched) && OthersStay(t0, t, rows[..k])
  }

  lemma SoFarStarts(t: Tables, rows: seq<ClaimId>)
    requires forall c :: c in rows ==> c in t.claims && t.claims[c].identity.None?
    ensures SoFar(t, t, rows, 0, {}, [])
  {
    hide Strength;
    assert forall j :: 0 <= j < |rows| ==> rows[j] in rows;
  }

  lemma NextIsFree(t0: Tables, t: Tables, rows: seq<ClaimId>, k: nat, touched: set<Id>, run: seq<Turn>)
    requires SoFar(t0, t, rows, k, touched, run) && k < |rows|
    ensures rows[k] in t.claims && t.claims[rows[k]].identity.None?
  {
    hide Strength, Unifies;
  }

  lemma SoFarEnds(t0: Tables, t: Tables, rows: seq<ClaimId>, touched: set<Id>, run: seq<Turn>)
    requires SoFar(t0, t, rows, |rows|, touched, run)
    ensures forall c :: c in rows ==> c in t.claims && (t.claims[c].identity.Some? <==> Strength(t.claims[c].tuple).Some?)
    ensures forall c :: c in rows && t.claims[c].identity.Some? ==> t.claims[c].identity.value in touched
    ensures forall c :: c in t.claims && c in t0.claims && c !in rows && t0.claims[c].identity.None? ==> t.claims[c] == t0.claims[c]
    ensures |run| == |rows| && Follows(run, t0, t) && (forall k :: 0 <= k < |rows| ==> run[k].claim == rows[k] && Unifies(run[k]))
    ensures forall id :: id in touched <==> exists k :: 0 <= k < |run| && run[k].id == Some(id)
  {
    hide Strength, Unifies;
    assert rows[..|rows|] == rows;
  }

  lemma SoFarNext(t0: Tables, x: Turn, rows: seq<ClaimId>, k: nat, touched: set<Id>, run: seq<Turn>)
    requires SoFar(t0, x.before, rows, k, touched, run) && k < |rows| && NoRepeats(rows) && x.claim == rows[k] && Unifies(x)
    requires Invariant(x.before) && Invariant(x.unified) && NoLinksAppear(x.before, x.unified) && Evolves(x.before, x.unified, x.m)
    ensures SoFar(t0, x.after, rows, k + 1, if x.id.Some? then touched + {x.id.value} else touched, run + [x])
  {
    hide Strength, Invariant, Evolves, MergedFor, Contains, NoLinksAppear, Least, Unifies, LinksTouched, OthersStay;
    SoFarClaims(t0, x, rows, k, touched, run);
    RunGrows(t0, x, run);
    IdsGrow(run, x, touched);
    hide Follows;
    assert forall j :: 0 <= j < k ==> (run + [x])[j] == run[j];
  }

  lemma RunGrows(t: Tables, x: Turn, run: seq<Turn>)
    requires Follows(run, t, x.before)
    ensures Follows(run + [x], t, x.after)
  {
    assert (run + [x])[..|run|] == run;
  }

  lemma IdsGrow(run: seq<Turn>, x: Turn, touched: set<Id>)
    requires forall id :: id in touched <==> exists j :: 0 <= j < |run| && run[j].id == Some(id)
    ensures forall id :: id in (if x.id.Some? then touched + {x.id.value} else touched) <==> exists j :: 0 <= j < |run + [x]| && (run + [x])[j].id == Some(id)
  {
    var all, now := run + [x], if x.id.Some? then touched + {x.id.value} else touched;
    assert all[|run|] == x;
    assert forall j :: 0 <= j < |run| ==> all[j] == run[j];
    forall id | id in now ensures exists j :: 0 <= j < |all| && all[j].id == Some(id) {
      if id in touched {
        var j :| 0 <= j < |run| && run[j].id == Some(id);
        assert all[j].id == Some(id);
      } else {
        assert all[|run|].id == Some(id);
      }
    }
    forall id | exists j :: 0 <= j < |all| && all[j].id == Some(id) ensures id in now {
      var j :| 0 <= j < |all| && all[j].id == Some(id);
      if j < |run| {
        assert run[j].id == Some(id);
      }
    }
  }

  lemma SoFarClaims(t0: Tables, x: Turn, rows: seq<ClaimId>, k: nat, touched: set<Id>, run: seq<Turn>)
    requires SoFar(t0, x.before, rows, k, touched, run) && k < |rows| && NoRepeats(rows) && x.claim == rows[k] && Unifies(x)
    requires Invariant(x.before) && Invariant(x.unified) && NoLinksAppear(x.before, x.unified) && Evolves(x.before, x.unified, x.m)
    ensures forall j :: 0 <= j < |rows| ==> rows[j] in x.after.claims
    ensures forall j :: k < j < |rows| ==> x.after.claims[rows[j]].identity.None?
    ensures forall j :: 0 <= j < k + 1 ==> (x.after.claims[rows[j]].identity.Some? <==> Strength(x.after.claims[rows[j]].tuple).Some?)
    ensures LinksTouched(x.after, rows[..k + 1], if x.id.Some? then touched + {x.id.value} else touched) && OthersStay(t0, x.after, rows[..k + 1])
  {
    hide Strength, Invariant, MergedFor, Contains, Least, Follows, Rank, NoLinksAppear, Evolves, LinksTouched, OthersStay;
    ClaimsStay(x.before, x.unified, x.m, rows, k);
    UnifiedClaim(x);
    TurnLinks(x, rows, k, touched);
    TurnOthers(t0, x, rows, k);
  }

  /** What its turn does to the claim, and that it does nothing to the others. */
  lemma UnifiedClaim(x: Turn)
    requires Unifies(x) && Evolves(x.before, x.unified, x.m) && NoLinksAppear(x.before, x.unified) && x.before.claims[x.claim].identity.None?
    ensures x.after.claims.Keys == x.unified.claims.Keys == x.before.claims.Keys
    ensures forall c :: c in x.before.claims && c != x.claim ==> x.after.claims[c] == x.unified.claims[c]
    ensures x.after.claims[x.claim].identity == x.id && x.after.claims[x.claim].tuple == x.before.claims[x.claim].tuple
    ensures x.id.Some? <==> Strength(x.before.claims[x.claim].tuple).Some?
  {
    hide MergedFor, Contains, NoLinksAppear;
    StrengthIsRank(x.before.claims[x.claim].tuple);
  }

  lemma TurnLinks(x: Turn, rows: seq<ClaimId>, k: nat, touched: set<Id>)
    requires Unifies(x) && Evolves(x.before, x.unified, x.m) && NoLinksAppear(x.before, x.unified) && x.before.claims[x.claim].identity.None?
    requires Invariant(x.before) && k < |rows| && x.claim == rows[k] && LinksTouched(x.before, rows[..k], touched)
    requires forall j :: 0 <= j < |rows| ==> rows[j] in x.before.claims
    ensures LinksTouched(x.after, rows[..k + 1], if x.id.Some? then touched + {x.id.value} else touched)
  {
    hide Strength, Invariant, MergedFor, Contains, NoLinksAppear, Evolves;
    UnifiedClaim(x);
    LinksFollow(x.before, x.unified, x.before.claims[x.claim].tuple, x.id, x.m, rows[..k], touched);
    assert rows[..k + 1] == rows[..k] + [rows[k]];
  }

  lemma TurnOthers(t0: Tables, x: Turn, rows: seq<ClaimId>, k: nat)
    requires Unifies(x) && Evolves(x.before, x.unified, x.m) && NoLinksAppear(x.before, x.unified) && x.before.claims[x.claim].identity.None?
    requires k < |rows| && x.claim == rows[k] && OthersStay(t0, x.before, rows[..k])
    ensures OthersStay(t0, x.after, rows[..k + 1])
  {
    hide Strength, MergedFor, Contains, NoLinksAppear, OthersStay;
    UnifiedClaim(x);
    Remain(t0, x.before, x.unified, x.after, rows, k);
  }

  /** Claims that were not linked and are not among these stay as they were. */
  ghost predicate OthersStay(t: Tables, u: Tables, rows: seq<ClaimId>) {
    forall c :: c in t.claims && c !in rows && t.claims[c].identity.None? ==> c in u.claims && u.claims[c] == t.claims[c]
  }

  lemma Remain(t: Tables, before: Tables, unified: Tables, after: Tables, rows: seq<ClaimId>, k: nat)
    requires k < |rows| && OthersStay(t, before, rows[..k]) && NoLinksAppear(before, unified)
    requires unified.claims.Keys == before.claims.Keys && forall c :: c in before.claims ==> unified.claims[c].tuple == before.claims[c].tuple
    requires forall c :: c in unified.claims && c != rows[k] ==> c in after.claims && after.claims[c] == unified.claims[c]
    ensures OthersStay(t, after, rows[..k + 1])
  {
    assert rows[..k + 1] == rows[..k] + [rows[k]];
  }

  /** Every linked claim's identity has been noted. */
  ghost predicate LinksTouched(t: Tables, rows: seq<ClaimId>, touched: set<Id>) {
    forall c :: c in rows && c in t.claims && t.claims[c].identity.Some? ==> t.claims[c].identity.value in touched
  }

  /** Claims whose identity was merged away follow it to the claim's new one. */
  lemma LinksFollow(t: Tables, u: Tables, tuple: Tuple, id: Option<Id>, m: map<Id, Id>, rows: seq<ClaimId>, touched: set<Id>)
    requires Invariant(t) && Evolves(t, u, m) && NoLinksAppear(t, u) && LinksTouched(t, rows, touched) && forall c :: c in rows ==> c in t.claims
    requires if id.Some? then MergedFor(t, u, tuple, id.value, m) else u == t
    ensures LinksTouched(u, rows, if id.Some? then touched + {id.value} else touched)
  {
    hide Contains, Compatible, Strength;
    forall c | c in rows && c in u.claims && u.claims[c].identity.Some?
      ensures u.claims[c].identity.value in if id.Some? then touched + {id.value} else touched
    {
      assert ClaimOk(t, t.claims[c]);
    }
  }

  /** What a revision's rows look like after one claim is unified. */
  lemma ClaimsStay(t: Tables, u: Tables, m: map<Id, Id>, rows: seq<ClaimId>, k: nat)
    requires Invariant(t) && Evolves(t, u, m) && Invariant(u) && k <= |rows| && NoLinksAppear(t, u)
    requires forall j :: 0 <= j < |rows| ==> rows[j] in t.claims
    ensures forall j :: 0 <= j < |rows| ==> rows[j] in u.claims && u.claims[rows[j]].tuple == t.claims[rows[j]].tuple
                                            && (u.claims[rows[j]].identity.Some? <==> t.claims[rows[j]].identity.Some?)
  {
    forall j | 0 <= j < |rows| ensures u.claims[rows[j]].identity.Some? <==> t.claims[rows[j]].identity.Some? {
      assert ClaimOk(t, t.claims[rows[j]]);
    }
  }

  /** No claim becomes linked. */
  ghost predicate NoLinksAppear(t: Tables, u: Tables) {
    forall c :: c in t.claims && t.claims[c].identity.None? ==> c in u.claims && u.claims[c].identity.None?
  }

  /**
   What a unified claim did: only identities it qualifies for moved, all to `id`;
   one that qualified and did not move conflicts with what `id` now knows.
   */
  ghost predicate MergedFor(t: Tables, u: Tables, tuple: Tuple, id: Id, m: map<Id, Id>) {
    && id in u.identities && m.Keys == t.identities.Keys
    && (forall x :: x in t.identities ==> m[x] == x || m[x] == id)
    && (forall x :: x in t.identities && x != id && !Qualifies(tuple, t.identities[x].tuple) ==> m[x] == x && x in u.identities && u.identities[x] == t.identities[x])
    && (forall x :: x in t.identities && Qualifies(tuple, t.identities[x].tuple) && m[x] != id ==> !Compatible(u.identities[id].tuple, t.identities[x].tuple))
    && NoLinksAppear(t, u) && Chosen(t, u, tuple, id) && Gone(u, m) && LinksFrom(t, u, id, m)
    && Least(t, tuple, u.identities[id].tuple, id, m) && RowsAfter(t, u, id, m)
  }

  /** `whole` has nothing that neither `tuple` nor an identity merged into `id` has. */
  ghost predicate Least(t: Tables, tuple: Tuple, whole: Tuple, id: Id, m: map<Id, Id>) {
    forall big :: Contains(big, tuple) && (forall x :: x in m && m[x] == id && x in t.identities ==> Contains(big, t.identities[x].tuple)) ==> Contains(big, whole)
  }

  /** The survivor is the strongest of those that qualify, the oldest of equals; a new identity knows just the claim's hashes. */
  ghost predicate Chosen(t: Tables, u: Tables, tuple: Tuple, id: Id) {
    if id in t.identities then
      && Qualifies(tuple, t.identities[id].tuple)
      && (forall x :: x in t.identities && x != id && Qualifies(tuple, t.identities[x].tuple) ==> IsStronger(t.identities, id, x))
    else
      && Strength(tuple).Some? && u.identities == t.identities[id := Identity(tuple, Strength(tuple).value)]
      && forall x :: x in t.identities ==> !Qualifies(tuple, t.identities[x].tuple)
  }

  ghost predicate IsStronger(rows: map<Id, Identity>, a: Id, b: Id)
    requires a in rows && b in rows
  {
    Rank(rows[a].tuple) > Rank(rows[b].tuple) || (Rank(rows[a].tuple) == Rank(rows[b].tuple) && a < b)
  }

  lemma PrefersStronger(rows: map<Id, Identity>, a: Id, b: Id)
    requires a in rows && b in rows
    ensures Prefers(rows, a, b) <==> IsStronger(rows, a, b)
  {
  }

  /** The rows are those that did not move, as they were, and the one the claim has now. */
  ghost predicate RowsAfter(t: Tables, u: Tables, id: Id, m: map<Id, Id>) {
    && (forall x :: x in u.identities <==> x == id || (x in m && m[x] == x))
    && (forall x :: x in t.identities && x in u.identities && x != id ==> u.identities[x] == t.identities[x])
  }

  /** What moved is no identity any more. */
  ghost predicate Gone(u: Tables, m: map<Id, Id>) {
    forall x :: x in m && m[x] != x ==> x !in u.identities
  }

  /** Every link is an old one with its basis: the survivor's own where it had one, otherwise one of those merged into it. */
  ghost predicate LinksFrom(t: Tables, u: Tables, survivor: Id, m: map<Id, Id>) {
    forall k :: k in u.links ==> if k in t.links then u.links[k] == t.links[k] else k.0 == survivor && Inherited(t, survivor, m, k.1, u.links[k])
  }

  ghost predicate Inherited(t: Tables, survivor: Id, m: map<Id, Id>, blob: BlobId, basis: int) {
    exists x :: x in m && m[x] == survivor && (x, blob) in t.links && t.links[(x, blob)] == basis
  }

  method PickFresh(rows: map<Id, Identity>) returns (id: Id)
    ensures id !in rows
  {
    ghost var next := FreshId(rows.Keys);
    assert next !in rows;
    id :| id !in rows;
  }

  /** The first `k` losers are merged or conflict; `t` still holds the survivor's old row, `tuple` its pending one. */
  ghost predicate Merging(t0: Tables, t: Tables, survivor: Id, tuple0: Tuple, tuple: Tuple, losers: seq<Id>, k: nat, m: map<Id, Id>) {
    && Strength(tuple0).Some? && Strength(tuple).Some? && Contains(tuple, tuple0)
    && survivor in t0.identities && survivor in t.identities && k <= |losers| && m.Keys == t0.identities.Keys
    && Invariant(WithRow(t0, survivor, Identity(tuple0, Strength(tuple0).value)))
    && Invariant(WithRow(t, survivor, Identity(tuple, Strength(tuple).value)))
    && Evolves(WithRow(t0, survivor, Identity(tuple0, Strength(tuple0).value)), WithRow(t, survivor, Identity(tuple, Strength(tuple).value)), m)
    && NoRepeats(losers) && survivor !in losers && (forall id :: id in losers ==> id in t0.identities)
    && (forall id :: id in m ==> m[id] == survivor || m[id] == id)
    && Pending(t0, t, losers, k, m)
    && Conflicting(t0, survivor, tuple, losers, k, m)
    && Untouched(t0, t, survivor, losers, m)
    && NoLinksAppear(t0, t) && Gone(t, m) && LinksFrom(t0, t, survivor, m) && Least(t0, tuple0, tuple, survivor, m)
    && RowsAfter(t0, t, survivor, m)
  }

  ghost predicate Pending(t0: Tables, t: Tables, losers: seq<Id>, k: nat, m: map<Id, Id>) {
    forall j :: k <= j < |losers| ==>
      && losers[j] in t0.identities && losers[j] in t.identities && t.identities[losers[j]] == t0.identities[losers[j]]
      && losers[j] in m && m[losers[j]] == losers[j]
  }

  ghost predicate Conflicting(t0: Tables, survivor: Id, tuple: Tuple, losers: seq<Id>, k: nat, m: map<Id, Id>) {
    forall j :: 0 <= j < k && j < |losers| ==>
      && losers[j] in m && losers[j] in t0.identities
      && (m[losers[j]] != survivor ==> !Compatible(tuple, t0.identities[losers[j]].tuple))
  }

  ghost predicate Untouched(t0: Tables, t: Tables, survivor: Id, losers: seq<Id>, m: map<Id, Id>) {
    forall id :: id in t0.identities && id !in losers && id != survivor ==>
      id in m && m[id] == id && id in t.identities && t.identities[id] == t0.identities[id]
  }

  lemma MergingStarts(t: Tables, survivor: Id, tuple0: Tuple, losers: seq<Id>)
    requires survivor in t.identities && Strength(tuple0).Some?
    requires Invariant(WithRow(t, survivor, Identity(tuple0, Strength(tuple0).value)))
    requires NoRepeats(losers) && survivor !in losers && forall id :: id in losers ==> id in t.identities
    ensures Merging(t, t, survivor, tuple0, tuple0, losers, 0, Stay(t))
  {
    hide Invariant, Strength, Contains, Compatible;
    var before := WithRow(t, survivor, Identity(tuple0, Strength(tuple0).value));
    EvolvesNot(before);
    assert before.identities.Keys == t.identities.Keys;
    assert Stay(before) == Stay(t);
    SelfContained(tuple0);
    hide Evolves;
  }

  lemma LoserLives(t0: Tables, t: Tables, survivor: Id, tuple0: Tuple, tuple: Tuple, losers: seq<Id>, k: nat, m: map<Id, Id>)
    requires Merging(t0, t, survivor, tuple0, tuple, losers, k, m) && k < |losers|
    ensures losers[k] in t.identities && losers[k] in t0.identities && t.identities[losers[k]] == t0.identities[losers[k]] && losers[k] != survivor
  {
    hide Invariant, Strength, Contains, Compatible, Evolves, NoLinksAppear, LinksFrom, Gone, Least, RowsAfter;
  }

  lemma MergingContains(t0: Tables, t: Tables, survivor: Id, tuple0: Tuple, tuple: Tuple, losers: seq<Id>, k: nat, m: map<Id, Id>)
    requires Merging(t0, t, survivor, tuple0, tuple, losers, k, m)
    ensures Contains(tuple, tuple0)
  {
  }

  lemma MergingSkips(t0: Tables, t: Tables, survivor: Id, tuple0: Tuple, tuple: Tuple, losers: seq<Id>, k: nat, m: map<Id, Id>)
    requires Merging(t0, t, survivor, tuple0, tuple, losers, k, m) && k < |losers| && losers[k] in t.identities
    requires !Compatible(tuple, t.identities[losers[k]].tuple)
    ensures Merging(t0, t, survivor, tuple0, tuple, losers, k + 1, m)
  {
    hide Invariant, Strength, Contains, Compatible, Evolves, NoLinksAppear, Untouched, NoRepeats, LinksFrom, Gone, Least, RowsAfter;
  }

  lemma MergingTakes(t0: Tables, t: Tables, survivor: Id, tuple0: Tuple, tuple: Tuple, losers: seq<Id>, k: nat, m: map<Id, Id>)
    requires Merging(t0, t, survivor, tuple0, tuple, losers, k, m) && k < |losers| && losers[k] in t.identities
    requires Compatible(tuple, t.identities[losers[k]].tuple)
    ensures Merging(t0, Merge(t, survivor, losers[k]), survivor, tuple0, Absorb(tuple, t.identities[losers[k]].tuple), losers, k + 1,
                    m[losers[k] := survivor])
  {
    LoserLives(t0, t, survivor, tuple0, tuple, losers, k, m);
    TakesLinks(t0, t, survivor, tuple0, tuple, losers, k, m);
    hide Invariant, Strength, Contains, Compatible, Evolves, NoLinksAppear, Merge, Absorb, LinksFrom, Gone, Least, RowsAfter, WithRow, NoRepeats, Pending, Untouched, Conflicting;
    var loser := losers[k];
    var larger := Absorb(tuple, t.identities[loser].tuple);
    TakesRow(t0, t, survivor, tuple0, tuple, losers, k, m);
    StepConflicts(t0, survivor, tuple, larger, losers, k, m);
    MergeLeaves(t0, t, survivor, loser, m);
    StepOthers(t0, t, survivor, losers, k, m);
  }

  lemma MergeLeaves(t0: Tables, t: Tables, survivor: Id, loser: Id, m: map<Id, Id>)
    requires NoLinksAppear(t0, t)
    ensures NoLinksAppear(t0, Merge(t, survivor, loser))
    ensures RowsAfter(t0, t, survivor, m) && survivor != loser ==> RowsAfter(t0, Merge(t, survivor, loser), survivor, m[loser := survivor])
    ensures forall id :: id != loser && id in t.identities ==> id in Merge(t, survivor, loser).identities && Merge(t, survivor, loser).identities[id] == t.identities[id]
  {
  }

  lemma TakesRow(t0: Tables, t: Tables, survivor: Id, tuple0: Tuple, tuple: Tuple, losers: seq<Id>, k: nat, m: map<Id, Id>)
    requires Merging(t0, t, survivor, tuple0, tuple, losers, k, m) && k < |losers| && losers[k] in t.identities
    requires Compatible(tuple, t.identities[losers[k]].tuple)
    ensures var (u, larger) := (Merge(t, survivor, losers[k]), Absorb(tuple, t.identities[losers[k]].tuple));
      && Contains(larger, tuple) && Contains(larger, tuple0) && Strength(larger).Some? && survivor in u.identities
      && Least(t0, tuple0, larger, survivor, m[losers[k] := survivor])
      && Invariant(WithRow(u, survivor, Identity(larger, Strength(larger).value)))
      && Evolves(WithRow(t0, survivor, Identity(tuple0, Strength(tuple0).value)), WithRow(u, survivor, Identity(larger, Strength(larger).value)),
                 m[losers[k] := survivor])
  {
    hide Invariant, Strength, Contains, Compatible, Evolves, NoLinksAppear, Merge, Absorb, LinksFrom, Gone, Least, RowsAfter, Untouched, Conflicting;
    var loser := losers[k];
    var larger := Absorb(tuple, t.identities[loser].tuple);
    StepMerge(t, WithRow(t0, survivor, Identity(tuple0, Strength(tuple0).value)), survivor, loser, tuple, larger, m);
    ContainsTransitive(larger, tuple, tuple0);
    StaysLeast(t0, tuple0, tuple, survivor, loser, m);
  }

  lemma StaysLeast(t0: Tables, tuple0: Tuple, tuple: Tuple, survivor: Id, loser: Id, m: map<Id, Id>)
    requires Least(t0, tuple0, tuple, survivor, m) && loser in t0.identities && loser in m && m[loser] == loser && loser != survivor
    requires Compatible(tuple, t0.identities[loser].tuple)
    ensures Least(t0, tuple0, Absorb(tuple, t0.identities[loser].tuple), survivor, m[loser := survivor])
  {
    var (other, n) := (t0.identities[loser].tuple, m[loser := survivor]);
    AbsorbIsUnion(tuple, other);
    hide Contains, Compatible, Absorb;
    forall big | Contains(big, tuple0) && (forall x :: x in n && n[x] == survivor && x in t0.identities ==> Contains(big, t0.identities[x].tuple))
      ensures Contains(big, Absorb(tuple, other))
    {
      assert n[loser] == survivor;
      forall x | x in m && m[x] == survivor && x in t0.identities ensures Contains(big, t0.identities[x].tuple) {
        assert n[x] == survivor;
      }
    }
  }

  /** Merged links come from where they should. */
  lemma MergeLinks(t0: Tables, t: Tables, survivor: Id, loser: Id, m: map<Id, Id>)
    requires LinksFrom(t0, t, survivor, m) && Gone(t, m) && survivor in m && m[survivor] == survivor && loser in m && m[loser] == loser && survivor != loser
    requires forall k :: k in t0.links && k.0 == survivor ==> k in t.links
    ensures LinksFrom(t0, Merge(t, survivor, loser), survivor, m[loser := survivor]) && Gone(Merge(t, survivor, loser), m[loser := survivor])
  {
    var u, n := Merge(t, survivor, loser), m[loser := survivor];
    forall k | k in u.links && k !in t0.links ensures k.0 == survivor && Inherited(t0, survivor, n, k.1, u.links[k]) {
      if k in t.links {
        var x :| x in m && m[x] == survivor && (x, k.1) in t0.links && t0.links[(x, k.1)] == t.links[k];
        assert n[x] == survivor;
      } else {
        assert (loser, k.1) in t.links && n[loser] == survivor;
      }
    }
  }

  lemma TakesLinks(t0: Tables, t: Tables, survivor: Id, tuple0: Tuple, tuple: Tuple, losers: seq<Id>, k: nat, m: map<Id, Id>)
    requires Merging(t0, t, survivor, tuple0, tuple, losers, k, m) && k < |losers|
    ensures LinksFrom(t0, Merge(t, survivor, losers[k]), survivor, m[losers[k] := survivor]) && Gone(Merge(t, survivor, losers[k]), m[losers[k] := survivor])
  {
    hide Invariant, Strength, Contains, Compatible, NoLinksAppear, LinksFrom, Gone, Least, RowsAfter, Merge, Untouched, Conflicting;
    SurvivorsLinksStay(t0, t, survivor, Identity(tuple0, Strength(tuple0).value), Identity(tuple, Strength(tuple).value), m);
    hide Evolves;
    MergeLinks(t0, t, survivor, losers[k], m);
  }

  lemma SurvivorsLinksStay(t0: Tables, t: Tables, survivor: Id, i: Identity, j: Identity, m: map<Id, Id>)
    requires Evolves(WithRow(t0, survivor, i), WithRow(t, survivor, j), m) && survivor in m && m[survivor] == survivor
    ensures forall k :: k in t0.links && k.0 == survivor ==> k in t.links
  {
    hide Contains;
    assert WithRow(t0, survivor, i).links == t0.links && WithRow(t, survivor, j).links == t.links;
    forall k | k in t0.links && k.0 == survivor ensures k in t.links {
      assert (m[k.0], k.1) == k;
    }
  }

  lemma StepOthers(t0: Tables, t: Tables, survivor: Id, losers: seq<Id>, k: nat, m: map<Id, Id>)
    requires k < |losers| && NoRepeats(losers) && Pending(t0, t, losers, k, m) && Untouched(t0, t, survivor, losers, m)
    ensures Pending(t0, Merge(t, survivor, losers[k]), losers, k + 1, m[losers[k] := survivor])
    ensures Untouched(t0, Merge(t, survivor, losers[k]), survivor, losers, m[losers[k] := survivor])
  {
  }

  lemma EvolvesNot(t: Tables)
    ensures Evolves(t, t, Stay(t))
  {
    hide Contains;
    forall x ensures Contains(x, x) {
      SelfContained(x);
    }
  }

  /** One merge step: the survivor's tuple grows by the loser's, then the loser goes. */
  lemma StepMerge(t: Tables, before: Tables, survivor: Id, loser: Id, tuple: Tuple, larger: Tuple, m: map<Id, Id>)
    requires survivor in t.identities && loser in t.identities && survivor != loser && Strength(tuple).Some? && Invariant(before)
    requires var now := WithRow(t, survivor, Identity(tuple, Strength(tuple).value)); Invariant(now) && Evolves(before, now, m)
    requires Compatible(tuple, t.identities[loser].tuple) && larger == Absorb(tuple, t.identities[loser].tuple)
    requires loser in m && m[loser] == loser
    requires forall id :: id in m && id != loser ==> m[id] != loser
    ensures Contains(larger, tuple) && Strength(larger).Some? && survivor in Merge(t, survivor, loser).identities
    ensures var after := WithRow(Merge(t, survivor, loser), survivor, Identity(larger, Strength(larger).value));
            Invariant(after) && Evolves(before, after, m[loser := survivor])
  {
    hide Strength, Contains, Evolves, Invariant, Compatible, Absorb, Merge, Then;
    AbsorbIsUnion(tuple, t.identities[loser].tuple);
    var now := WithRow(t, survivor, Identity(tuple, Strength(tuple).value));
    RaiseKeeps(now, survivor, larger);
    var raised := WithRow(now, survivor, Identity(larger, Strength(larger).value));
    EvolvesThen(before, now, raised, m, Stay(now));
    MergeKeeps(raised, survivor, loser);
    EvolvesThen(before, raised, Merge(raised, survivor, loser), Then(m, Stay(now)), Stay(raised)[loser := survivor]);
    MergeWithRow(t, survivor, loser, Identity(tuple, Strength(tuple).value), Identity(larger, Strength(larger).value));
    EvolvesKeys(before, now, m);
    StepMap(now, raised, survivor, loser, m);
  }

  lemma MergeWithRow(t: Tables, survivor: Id, loser: Id, i: Identity, j: Identity)
    requires survivor in t.identities && survivor != loser
    ensures Merge(WithRow(WithRow(t, survivor, i), survivor, j), survivor, loser) == WithRow(Merge(t, survivor, loser), survivor, j)
    ensures survivor in Merge(t, survivor, loser).identities
  {
    var a := Merge(WithRow(WithRow(t, survivor, i), survivor, j), survivor, loser);
    var b := WithRow(Merge(t, survivor, loser), survivor, j);
    assert a.identities == b.identities;
  }

  lemma StepMap(now: Tables, raised: Tables, survivor: Id, loser: Id, m: map<Id, Id>)
    requires now.identities.Keys == raised.identities.Keys && loser in m && m[loser] == loser
    requires forall id :: id in m ==> m[id] in now.identities
    requires forall id :: id in m && id != loser ==> m[id] != loser
    ensures Then(Then(m, Stay(now)), Stay(raised)[loser := survivor]) == m[loser := survivor]
  {
    var a, b := Then(Then(m, Stay(now)), Stay(raised)[loser := survivor]), m[loser := survivor];
    assert a.Keys == b.Keys;
  }

  lemma EvolvesKeys(t: Tables, u: Tables, m: map<Id, Id>)
    requires Evolves(t, u, m)
    ensures m.Keys == t.identities.Keys && forall id :: id in m ==> m[id] in u.identities
  {
  }

  lemma StepConflicts(t0: Tables, survivor: Id, tuple: Tuple, larger: Tuple, losers: seq<Id>, k: nat, m: map<Id, Id>)
    requires k < |losers| && Conflicting(t0, survivor, tuple, losers, k, m) && Contains(larger, tuple) && losers[k] in t0.identities
    ensures Conflicting(t0, survivor, larger, losers, k + 1, m[losers[k] := survivor])
  {
    StillConflicts(t0.identities, losers, k, m, survivor, tuple, larger);
    hide Contains, Compatible;
  }

  lemma StillConflicts(rows: map<Id, Identity>, losers: seq<Id>, k: nat, m: map<Id, Id>, survivor: Id, tuple: Tuple, larger: Tuple)
    requires k <= |losers| && Contains(larger, tuple) && forall j :: 0 <= j < k ==> losers[j] in rows && losers[j] in m
    requires forall j :: 0 <= j < k && m[losers[j]] != survivor ==> !Compatible(tuple, rows[losers[j]].tuple)
    ensures forall j :: 0 <= j < k && m[losers[j]] != survivor ==> !Compatible(larger, rows[losers[j]].tuple)
  {
    forall j | 0 <= j < k && m[losers[j]] != survivor ensures !Compatible(larger, rows[losers[j]].tuple) {
      ConflictStays(tuple, larger, rows[losers[j]].tuple);
    }
  }

  lemma AbsorbQualifying(t: Tables, survivor: Id, tuple: Tuple)
    requires Invariant(t) && survivor in t.identities && Qualifies(tuple, t.identities[survivor].tuple)
    ensures var absorbed := Absorb(t.identities[survivor].tuple, tuple);
            Contains(absorbed, t.identities[survivor].tuple) && Contains(absorbed, tuple)
  {
    AbsorbIsUnion(t.identities[survivor].tuple, tuple);
  }

  function Without(ids: seq<Id>, x: Id): (r: seq<Id>)
    ensures forall id :: id in r <==> id in ids && id != x
  {
    if ids == [] then []
    else
      var n := |ids| - 1;
      var rest := Without(ids[..n], x);
      assert ids == ids[..n] + [ids[n]];
      if ids[n] == x then rest else rest + [ids[n]]
  }

  lemma {:induction false} WithoutOnce(ids: seq<Id>, x: Id)
    requires NoRepeats(ids)
    ensures NoRepeats(Without(ids, x))
  {
    if ids != [] {
      var n := |ids| - 1;
      WithoutOnce(ids[..n], x);
      assert ids[n] !in ids[..n];
    }
  }

  lemma StayThen(t: Tables, u: Tables, n: map<Id, Id>)
    requires n.Keys == t.identities.Keys == u.identities.Keys
    ensures Then(Stay(t), n) == n
  {
  }

  lemma MintedOnly(t: Tables, u: Tables, tuple: Tuple, id: Id, qualifying: seq<Id>)
    requires Strength(tuple).Some? && id !in t.identities && u == WithRow(t, id, Identity(tuple, Strength(tuple).value)) && qualifying == []
    requires forall x :: x in qualifying <==> x in t.identities && Qualifies(tuple, t.identities[x].tuple)
    ensures MergedFor(t, u, tuple, id, Stay(t)) && id in u.identities && Contains(u.identities[id].tuple, tuple) && NoLinksAppear(t, u)
  {
  }

  lemma MergedAll(t: Tables, u: Tables, tuple: Tuple, survivor: Id, qualifying: seq<Id>, losers: seq<Id>, final: Tuple, m: map<Id, Id>)
    requires survivor in t.identities && survivor in u.identities && u.identities[survivor].tuple == final && m.Keys == t.identities.Keys
    requires forall x :: x in qualifying <==> x in t.identities && Qualifies(tuple, t.identities[x].tuple)
    requires forall x :: x in losers <==> x in qualifying && x != survivor
    requires forall x :: x in m ==> m[x] == survivor || m[x] == x
    requires Conflicting(t, survivor, final, losers, |losers|, m) && Untouched(t, u, survivor, losers, m) && NoLinksAppear(t, u)
    requires Gone(u, m) && LinksFrom(t, u, survivor, m) && Chosen(t, u, tuple, survivor) && Least(t, tuple, final, survivor, m) && RowsAfter(t, u, survivor, m)
    ensures MergedFor(t, u, tuple, survivor, m)
  {
    hide Compatible, Qualifies, Gone, LinksFrom, Chosen, Least, RowsAfter;
    forall x | x in t.identities && Qualifies(tuple, t.identities[x].tuple) && m[x] != survivor
      ensures !Compatible(u.identities[survivor].tuple, t.identities[x].tuple)
    {
      if x != survivor {
        assert x in losers;
        var j :| 0 <= j < |losers| && losers[j] == x;
      }
    }
  }

  /** The least tuple over what the survivor knew with the claim is the least over the claim. */
  lemma LeastOfAll(t: Tables, survivor: Id, tuple: Tuple, final: Tuple, m: map<Id, Id>)
    requires survivor in t.identities && survivor in m && m[survivor] == survivor && Qualifies(tuple, t.identities[survivor].tuple)
    requires Least(t, Absorb(t.identities[survivor].tuple, tuple), final, survivor, m)
    ensures Least(t, tuple, final, survivor, m)
  {
    AbsorbIsUnion(t.identities[survivor].tuple, tuple);
    hide Contains, Compatible, Absorb;
  }

  lemma SameLinks(t: Tables)
    ensures NoLinksAppear(t, t)
  {
  }

  lemma FinalStrength(t0: Tables, t: Tables, survivor: Id, tuple0: Tuple, tuple: Tuple, losers: seq<Id>, m: map<Id, Id>)
    requires Merging(t0, t, survivor, tuple0, tuple, losers, |losers|, m)
    ensures Strength(tuple).Some?
  {
  }

  /** Writing the survivor's row completes the claim. */
  lemma Finished(t: Tables, merged: Tables, tuple: Tuple, survivor: Id, qualifying: seq<Id>, losers: seq<Id>, absorbed: Tuple, final: Tuple, m: map<Id, Id>)
    requires Invariant(t) && survivor in t.identities && survivor in qualifying && absorbed == Absorb(t.identities[survivor].tuple, tuple)
    requires Contains(absorbed, t.identities[survivor].tuple) && Contains(absorbed, tuple)
    requires forall x :: x in qualifying <==> x in t.identities && Qualifies(tuple, t.identities[x].tuple)
    requires forall x :: x in losers <==> x in qualifying && x != survivor
    requires forall x :: x in qualifying ==> x in t.identities && (x != survivor ==> IsStronger(t.identities, survivor, x))
    requires Merging(t, merged, survivor, absorbed, final, losers, |losers|, m)
    ensures Strength(final).Some? && Contains(final, tuple)
    ensures var u := WithRow(merged, survivor, Identity(final, Strength(final).value));
            && Invariant(u) && Evolves(t, u, m) && NoLinksAppear(t, u) && MergedFor(t, u, tuple, survivor, m)
            && survivor in u.identities && Contains(u.identities[survivor].tuple, tuple)
  {
    hide Invariant, Strength, Contains, Compatible, Evolves, Qualifies, Absorb, Then, NoRepeats, MergedFor, IsStronger;
    var u := WithRow(merged, survivor, Identity(final, Strength(final).value));
    RaiseKeeps(t, survivor, absorbed);
    var raised := WithRow(t, survivor, Identity(absorbed, Strength(absorbed).value));
    EvolvesThen(t, raised, u, Stay(t), m);
    StayThen(t, raised, m);
    ContainsTransitive(final, absorbed, tuple);
    LeastOfAll(t, survivor, tuple, final, m);
    MergedAll(t, u, tuple, survivor, qualifying, losers, final, m);
  }

  // ---- What linking keeps and merging does not ----

  /**
   Linking never lowers a link's evidence, unifying a claim may. Where the survivor has
   its own link to the blob, a link ends with a lower basis exactly when that one had
   it; where it has none, the new link is one of the merged identities'.
   */
  lemma UnifyLowersExactly(t: Tables, u: Tables, tuple: Tuple, id: Id, m: map<Id, Id>, k: (Id, BlobId))
    requires Evolves(t, u, m) && MergedFor(t, u, tuple, id, m) && Invariant(t) && k in t.links
    ensures k.0 in m && (m[k.0], k.1) in u.links
    ensures var now := u.links[(m[k.0], k.1)];
      if m[k.0] != id || (id, k.1) in t.links
      then now < t.links[k] <==> m[k.0] == id && t.links[(id, k.1)] < t.links[k]
      else Inherited(t, id, m, k.1, now)
  {
    hide Least, Chosen, NoLinksAppear, Contains, Compatible, Strength;
  }

  /** A run past the promise: an identity with a SHA-1 takes in a claim whose only strong hash is an MD5, on their size and CRC alone. */
  method StrongOnCrc(size: int, crc32: Digest, md5: Digest, sha1: Digest) returns (c: Catalog, first: Option<Id>, second: Option<Id>)
    ensures fresh(c) && first == second && first.Some?
    ensures !Promised(Tuple(Some(size), Some(crc32), Some(md5), None, None), Tuple(Some(size), Some(crc32), None, Some(sha1), None))
    ensures first.value in c.t.identities && Contains(c.t.identities[first.value].tuple, Tuple(Some(size), Some(crc32), Some(md5), Some(sha1), None))
  {
    var (one, two) := (Tuple(Some(size), Some(crc32), None, Some(sha1), None), Tuple(Some(size), Some(crc32), Some(md5), None, None));
    hide Invariant, Evolves, Least, NoLinksAppear, MergedFor;
    c := new Catalog();
    ghost var m, n;
    first, m := c.UnifyClaim(one);
    AddedAlone(Tables(map[], map[], map[]), c.t, one, first.value, m);
    ghost var t := c.t;
    second, n := c.UnifyClaim(two);
    TakenIn(t, c.t, one, two, first.value, second.value, n);
  }

  lemma TakenIn(t: Tables, u: Tables, one: Tuple, two: Tuple, id: Id, id2: Id, m: map<Id, Id>)
    requires t.identities.Keys == {id} && t.identities[id].tuple == one && Qualifies(two, one) && Evolves(t, u, m) && MergedFor(t, u, two, id2, m)
    ensures id2 == id && id in u.identities && Contains(u.identities[id].tuple, one)
  {
    hide Least, NoLinksAppear, LinksFrom;
    assert id in t.identities && m[id] == id;
  }

  const A_DISK: ClaimId := 0
  const A_FILE: ClaimId := 1
  const BOTH: ClaimId := 2

  /** A CHD file whose header declares a disk's SHA-1; nothing else has that SHA-1. */
  ghost predicate DeclaresDisk(a: Digest, b: Digest, blob: BlobId, aliases: set<Alias>) {
    && Alias(ChdSha1, a, blob) in aliases && Alias(Hashed(Md5), b, blob) in aliases
    && Alias(ChdSha1Verified, a, blob) !in aliases && Alias(Hashed(Sha1), a, blob) !in aliases
  }

  /** A first dat: one claim has the disk's SHA-1, another the MD5 of the CHD file itself. */
  method TwoHalves(a: Digest, b: Digest, blob: BlobId, aliases: set<Alias>, sizes: map<BlobId, int>) returns (c: Catalog, i: Id, j: Id)
    requires DeclaresDisk(a, b, blob, aliases)
    ensures fresh(c) && c.Valid() && i != j && c.t.claims.Keys == {A_DISK, A_FILE} && c.t.claims[A_FILE].identity == Some(j)
    ensures c.t.identities.Keys == {i, j} && c.t.identities[i].tuple == DiskOf(a) && c.t.identities[j].tuple == FileOf(b)
    ensures Basis(c.t.links, (i, blob)) == Some(BASIS_DECLARED) && Basis(c.t.links, (j, blob)) == Some(BASIS_MD5)
  {
    hide Invariant, Evolves, MergedFor, Contains, Evidence, Strength, DeclaresDisk;
    Strengths(a, b);
    c := new Catalog();
    c.AddClaim(A_DISK, DiskOf(a));
    ghost var t0 := c.t;
    var first, m0 := c.UnifyClaim(DiskOf(a));
    i := first.value;
    AddedAlone(t0, c.t, DiskOf(a), i, m0);
    ClaimsCarried(t0, c.t, m0);
    c.SetIdentity(A_DISK, i);
    c.AddClaim(A_FILE, FileOf(b));
    ghost var t1 := c.t;
    var second, m1 := c.UnifyClaim(FileOf(b));
    j := second.value;
    AddedBeside(t1, c.t, DiskOf(a), FileOf(b), i, j, m1);
    ClaimsCarried(t1, c.t, m1);
    c.SetIdentity(A_FILE, j);
    BothLinked(a, b, blob, aliases, sizes);
    c.LinkIdentities([i, j], aliases, sizes);
  }

  /**
   A run in which that happens: the two claims are two identities, the second with the
   better evidence for the blob. A claim with both hashes merges them, the SHA-1 one
   survives with its declared link, and linking again does not bring the MD5 back.
   */
  method EvidenceLost(a: Digest, b: Digest, blob: BlobId, aliases: set<Alias>, sizes: map<BlobId, int>)
    returns (c: Catalog, ghost before: Tables, weak: Id, strong: Id)
    requires DeclaresDisk(a, b, blob, aliases)
    ensures fresh(c) && c.Valid() && A_FILE in before.claims && A_FILE in c.t.claims
    ensures before.claims[A_FILE].identity == Some(weak) && Basis(before.links, (weak, blob)) == Some(BASIS_MD5)
    ensures c.t.claims[A_FILE].identity == Some(strong) && Basis(c.t.links, (strong, blob)) == Some(BASIS_DECLARED)
  {
    hide Invariant, Evolves, MergedFor, Contains, Evidence, Strength, DeclaresDisk, Best;
    Strengths(a, b);
    var i, j;
    c, i, j := TwoHalves(a, b, blob, aliases, sizes);
    before, weak := c.t, j;
    c.AddClaim(BOTH, BothOf(a, b));
    ghost var t2 := c.t;
    var k, m2 := c.UnifyClaim(BothOf(a, b));
    strong := k.value;
    MergedBoth(t2, c.t, a, b, i, j, strong, m2, blob);
    ClaimsCarried(t2, c.t, m2);
    c.SetIdentity(BOTH, strong);
    NoBetter(c.t.identities[strong].tuple, a, b, blob, aliases, sizes);
    c.LinkIdentities([strong], aliases, sizes);
  }

  function DiskOf(a: Digest): Tuple {
    Tuple(None, None, None, Some(a), None)
  }

  function FileOf(b: Digest): Tuple {
    Tuple(None, None, Some(b), None, None)
  }

  function BothOf(a: Digest, b: Digest): Tuple {
    Tuple(None, None, Some(b), Some(a), None)
  }

  lemma ClaimsCarried(t: Tables, u: Tables, m: map<Id, Id>)
    requires Evolves(t, u, m)
    ensures u.claims.Keys == t.claims.Keys && forall c :: c in t.claims ==> u.claims[c].tuple == t.claims[c].tuple
    ensures forall c :: c in t.claims && t.claims[c].identity.Some? && t.claims[c].identity.value in m ==>
              u.claims[c].identity == Some(m[t.claims[c].identity.value])
  {
  }

  lemma Strengths(a: Digest, b: Digest)
    ensures Strength(DiskOf(a)).Some? && Strength(FileOf(b)).Some? && Strength(BothOf(a, b)).Some?
  {
  }

  lemma AddedAlone(t: Tables, u: Tables, tuple: Tuple, id: Id, m: map<Id, Id>)
    requires t.identities == map[] && t.links == map[] && MergedFor(t, u, tuple, id, m)
    ensures u.identities.Keys == {id} && u.identities[id].tuple == tuple && u.links == map[]
  {
    assert forall k :: k in u.links ==> k in t.links;
  }

  lemma AddedBeside(t: Tables, u: Tables, tuple: Tuple, other: Tuple, id: Id, id2: Id, m: map<Id, Id>)
    requires t.identities.Keys == {id} && t.identities[id].tuple == tuple && t.links == map[] && MergedFor(t, u, other, id2, m)
    requires !Qualifies(other, tuple)
    ensures id2 != id && u.identities.Keys == {id, id2} && u.identities[id].tuple == tuple && u.identities[id2].tuple == other && u.links == map[]
  {
    assert forall k :: k in u.links ==> k in t.links;
  }

  lemma BothLinked(a: Digest, b: Digest, blob: BlobId, aliases: set<Alias>, sizes: map<BlobId, int>)
    requires DeclaresDisk(a, b, blob, aliases)
    ensures Evidence(DiskOf(a), blob, aliases, sizes) == Some(BASIS_DECLARED) && Evidence(FileOf(b), blob, aliases, sizes) == Some(BASIS_MD5)
  {
  }

  lemma NoBetter(tuple: Tuple, a: Digest, b: Digest, blob: BlobId, aliases: set<Alias>, sizes: map<BlobId, int>)
    requires tuple.sha1 == Some(a) && DeclaresDisk(a, b, blob, aliases)
    ensures Best(Some(BASIS_DECLARED), Evidence(tuple, blob, aliases, sizes)) == Some(BASIS_DECLARED)
  {
  }

  lemma MergedBoth(t: Tables, u: Tables, a: Digest, b: Digest, i: Id, j: Id, id: Id, m: map<Id, Id>, blob: BlobId)
    requires i != j && t.identities.Keys == {i, j} && t.identities[i].tuple == DiskOf(a) && t.identities[j].tuple == FileOf(b)
    requires Evolves(t, u, m) && MergedFor(t, u, BothOf(a, b), id, m) && Contains(u.identities[id].tuple, BothOf(a, b)) && (i, blob) in t.links
    ensures id == i && j in m && m[j] == i && u.identities[id].tuple.sha1 == Some(a) && (i, blob) in u.links && u.links[(i, blob)] == t.links[(i, blob)]
  {
    hide Least, NoLinksAppear, RowsAfter, Gone;
    assert Qualifies(BothOf(a, b), DiskOf(a)) && Qualifies(BothOf(a, b), FileOf(b));
    assert i in t.identities && j in t.identities;
    assert IsStronger(t.identities, i, j);
    assert id == i;
    assert Compatible(u.identities[id].tuple, FileOf(b));
    assert (m[i], blob) in u.links;
  }
}
