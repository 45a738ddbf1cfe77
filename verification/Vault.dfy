/**
 The reversible map `vault.pseudonym_map` and what its writes guarantee
 (worker/internal/store/store.go and worker/internal/anonymizer/anonymizer.go).
 */
module Vault {
  import opened Text
  import opened Records

  datatype Kind = Student | Guardian

  datatype Field = LastName | FirstName | MiddleName | Email | Phone

  /** The unique key of the map: (entity_type, entity_id, field_name). */
  datatype Key = Key(kind: Kind, id: Uuid, field: Field)

  /** SHA-256, symbolically: nothing below relies on more than its being a function. */
  datatype Digest = Sha256(plaintext: string)

  datatype Mapping = Mapping(hash: Digest, token: string)

  type PseudonymMap = map<Key, Mapping>

  /** One atomic upsert: the first token is kept, the hash is refreshed. */
  function Upsert(m: PseudonymMap, key: Key, hash: Digest, token: string): PseudonymMap
  {
    m[key := Mapping(hash, if key in m then m[key].token else token)]
  }

  // ── Fields to tokenize ─────────────────────────────────────────────────

  const FIELDS: seq<Field> := [LastName, FirstName, MiddleName, Email, Phone]

  function StudentValue(d: StudentData, f: Field): Option<string>
  {
    match f
    case LastName => Some(d.last)
    case FirstName => Some(d.first)
    case MiddleName => d.middle
    case Email => d.email
    case Phone => d.phone
  }

  function GuardianValue(d: GuardianData, f: Field): Option<string>
  {
    match f
    case LastName => Some(d.last)
    case FirstName => Some(d.first)
    case MiddleName => d.middle
    case Email => d.email
    case Phone => d.phone
  }

  /** The plaintext that `core` holds for a key; None also when there is no such row. */
  function Plaintext(core: Core, key: Key): Option<string>
  {
    match key.kind
    case Student => if key.id in core.students then StudentValue(core.students[key.id], key.field) else None
    case Guardian => if key.id in core.guardians then GuardianValue(core.guardians[key.id], key.field) else None
  }

  predicate EntityExists(core: Core, key: Key)
  {
    match key.kind
    case Student => key.id in core.students
    case Guardian => key.id in core.guardians
  }

  /** A value the loop tokenizes: neither NULL nor empty. */
  predicate Tokenizable(v: Option<string>)
  {
    v.Some? && v.value != ""
  }

  // ── Reversal ───────────────────────────────────────────────────────────

  datatype Restored = Unknown | Found(original: string) | NoSuchRow

  /** The keys that a student token can be looked up under. */
  ghost predicate Matches(m: PseudonymMap, key: Key, token: string)
  {
    key in m && key.kind.Student? && m[key].token == token
  }

  function Decrypted(core: Core, key: Key): Restored
  {
    if !EntityExists(core, key) then NoSuchRow
    else Found(match Plaintext(core, key) case None => "" case Some(v) => v)
  }

  /** What `RestorePseudonym` may answer: it reads whichever matching row the database returns first. */
  ghost predicate MayRestore(core: Core, m: PseudonymMap, token: string, r: Restored)
  {
    if exists key :: Matches(m, key, token)
    then exists key :: Matches(m, key, token) && r == Decrypted(core, key)
    else r == Unknown
  }

  /** No two student keys share a token. */
  ghost predicate StudentTokensDistinct(m: PseudonymMap)
  {
    forall j, k, t :: Matches(m, j, t) && Matches(m, k, t) ==> j == k
  }

  /** With distinct tokens a lookup has one answer, the current plaintext of the token's own field. */
  lemma RestoreIsInverse(core: Core, m: PseudonymMap, key: Key, r: Restored)
    requires key in m && key.kind.Student? && StudentTokensDistinct(m)
    requires MayRestore(core, m, m[key].token, r)
    ensures r == Decrypted(core, key)
  {
    assert Matches(m, key, m[key].token);
  }

  // ── A sequence of upserts ──────────────────────────────────────────────

  /** A field to be replaced by a token, with its plaintext. */
  datatype Cell = Cell(key: Key, value: string)

  ghost function Keys(cells: seq<Cell>): set<Key>
  {
    set c | c in cells :: c.key
  }

  /** Upserting the cells in order, the i-th with the i-th drawn token. */
  function UpsertAll(m: PseudonymMap, cells: seq<Cell>, draws: seq<string>): PseudonymMap
    requires |cells| <= |draws|
  {
    if cells == [] then m
    else
      var n := |cells| - 1;
      Upsert(UpsertAll(m, cells[..n], draws), cells[n].key, Sha256(cells[n].value), draws[n])
  }

  lemma KeysSnoc(cells: seq<Cell>, c: Cell)
    ensures Keys(cells + [c]) == Keys(cells) + {c.key}
  {
  }

  /** Tokens are write-once: whatever is upserted later, a mapped key keeps its token. */
  lemma {:induction false} TokensAreWriteOnce(m: PseudonymMap, cells: seq<Cell>, draws: seq<string>)
    requires |cells| <= |draws|
    ensures var m' := UpsertAll(m, cells, draws);
            && m'.Keys == m.Keys + Keys(cells)
            && forall k :: k in m ==> m'[k].token == m[k].token
  {
    if cells == [] {
      assert Keys(cells) == {};
    } else {
      var n := |cells| - 1;
      TokensAreWriteOnce(m, cells[..n], draws);
      KeysSnoc(cells[..n], cells[n]);
      assert cells == cells[..n] + [cells[n]];
    }
  }

  /** The map grows by exactly the keys that were not mapped yet. */
  lemma MapGrowth(m: PseudonymMap, cells: seq<Cell>, draws: seq<string>)
    requires |cells| <= |draws|
    ensures |UpsertAll(m, cells, draws)| == |m| + |Keys(cells) - m.Keys|
  {
    TokensAreWriteOnce(m, cells, draws);
    var m' := UpsertAll(m, cells, draws);
    assert m'.Keys == m.Keys + (Keys(cells) - m.Keys);
    assert |m'| == |m'.Keys| && |m| == |m.Keys|;
  }

  /** Tokens drawn now have not been issued before and do not repeat. */
  ghost predicate FreshDraws(m: PseudonymMap, draws: seq<string>)
  {
    && (forall i, j :: 0 <= i < j < |draws| ==> draws[i] != draws[j])
    && (forall i, k :: 0 <= i < |draws| && k in m ==> draws[i] != m[k].token)
  }

  ghost predicate TokensDistinct(m: PseudonymMap)
  {
    forall j, k :: j in m && k in m && m[j].token == m[k].token ==> j == k
  }

  /** Every new token is one of the draws already used. */
  lemma {:induction false} NewTokensAreDraws(m: PseudonymMap, cells: seq<Cell>, draws: seq<string>, k: Key)
    requires |cells| <= |draws|
    requires k in UpsertAll(m, cells, draws) && k !in m
    ensures UpsertAll(m, cells, draws)[k].token in draws[..|cells|]
  {
    var n := |cells| - 1;
    assert draws[..|cells|] == draws[..n] + [draws[n]];
    if k in UpsertAll(m, cells[..n], draws) {
      NewTokensAreDraws(m, cells[..n], draws, k);
    }
  }

  lemma {:induction false} DistinctKept(m: PseudonymMap, cells: seq<Cell>, draws: seq<string>)
    requires |cells| <= |draws| && TokensDistinct(m) && FreshDraws(m, draws)
    ensures TokensDistinct(UpsertAll(m, cells, draws))
  {
    if cells != [] {
      var n := |cells| - 1;
      var before := UpsertAll(m, cells[..n], draws);
      DistinctKept(m, cells[..n], draws);
      TokensAreWriteOnce(m, cells[..n], draws);
      forall k | k in before ensures before[k].token != draws[n] {
        if k !in m {
          NewTokensAreDraws(m, cells[..n], draws, k);
        }
      }
    }
  }

  /** If the upserts agree on what a key stands for, its hash is of that text afterwards. */
  lemma {:induction false} HashIsOf(m: PseudonymMap, cells: seq<Cell>, draws: seq<string>, key: Key, v: string)
    requires |cells| <= |draws| && key in Keys(cells)
    requires forall c :: c in cells && c.key == key ==> c.value == v
    ensures key in UpsertAll(m, cells, draws) && UpsertAll(m, cells, draws)[key].hash == Sha256(v)
  {
    var n := |cells| - 1;
    assert cells == cells[..n] + [cells[n]];
    if cells[n].key != key {
      HashIsOf(m, cells[..n], draws, key, v);
    }
  }

  /** Tokens as `newToken` makes them: a field tag and hex digits, so never empty. */
  ghost predicate RealTokens(m: PseudonymMap, draws: seq<string>)
  {
    (forall k :: k in m ==> m[k].token != "") && forall i :: 0 <= i < |draws| ==> draws[i] != ""
  }

  lemma {:induction false} RealTokensKept(m: PseudonymMap, cells: seq<Cell>, draws: seq<string>)
    requires |cells| <= |draws| && RealTokens(m, draws)
    ensures RealTokens(UpsertAll(m, cells, draws), draws)
  {
    if cells != [] {
      RealTokensKept(m, cells[..|cells| - 1], draws);
    }
  }
}
