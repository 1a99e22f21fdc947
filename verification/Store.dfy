/**
  The ETag-conditional row store: the atomic calls as functions on rows, the in-memory
  implementation proved against them, and what conditional writes guarantee over every history.
*/
module Store {
  import opened Util

  datatype Failure = BadRequest | NotFound | Conflict | Unavailable

  datatype Outcome<+T> = Ok(value: T) | Err(why: Failure)

  datatype Entity<+V> = Entity(data: V, etag: nat)

  /** `version` numbers the writes; it is never reset, not even by a delete. */
  datatype Rows<K, +V> = Rows(entities: map<K, Entity<V>>, version: nat)

  // ---------- The atomic calls ----------

  /** Store `v` under `k` with a fresh ETag. */
  function Write<K, V>(s: Rows<K, V>, k: K, v: V): Outcome<Rows<K, V>> {
    if s.version >= MAX_U64 then Err(Unavailable)
    else Ok(Rows(s.entities[k := Entity(v, s.version + 1)], s.version + 1))
  }

  function InsertRow<K, V>(s: Rows<K, V>, k: K, v: V): Outcome<Rows<K, V>> {
    if k in s.entities then Err(Conflict) else Write(s, k, v)
  }

  function ReplaceRow<K, V>(s: Rows<K, V>, k: K, v: V, etag: nat): Outcome<Rows<K, V>> {
    if k !in s.entities then Err(NotFound)
    else if s.entities[k].etag != etag then Err(Conflict)
    else Write(s, k, v)
  }

  function DeleteRow<K, V>(s: Rows<K, V>, k: K, etag: nat): Outcome<Rows<K, V>> {
    if k !in s.entities then Err(NotFound)
    else if s.entities[k].etag != etag then Err(Conflict)
    else Ok(s.(entities := s.entities - {k}))
  }

  // ---------- Histories ----------

  datatype Call<K, +V> =
    | Get(k: K)
    | Inserting(k: K, v: V)
    | Replacing(k: K, v: V, etag: nat)
    | Deleting(k: K, etag: nat)

  function Answer<K, V>(s: Rows<K, V>, c: Call<K, V>): Outcome<Rows<K, V>> {
    match c
    case Get(_) => Ok(s)
    case Inserting(k, v) => InsertRow(s, k, v)
    case Replacing(k, v, etag) => ReplaceRow(s, k, v, etag)
    case Deleting(k, etag) => DeleteRow(s, k, etag)
  }

  function After<K, V>(s: Rows<K, V>, c: Call<K, V>): Rows<K, V> {
    match Answer(s, c)
    case Ok(t) => t
    case Err(_) => s
  }

  /** The store after the first `i` calls of a history that starts empty. */
  function At<K, V>(h: seq<Call<K, V>>, i: nat): Rows<K, V>
    requires i <= |h|
  {
    if i == 0 then Rows(map[], 0) else After(At(h, i - 1), h[i - 1])
  }

  predicate Succeeds<K(==), V>(h: seq<Call<K, V>>, i: nat)
    requires i < |h|
  {
    Answer(At(h, i), h[i]).Ok?
  }

  /** Call `i` issued a new ETag. */
  predicate Issues<K(==), V>(h: seq<Call<K, V>>, i: nat)
    requires i < |h|
  {
    (h[i].Inserting? || h[i].Replacing?) && Succeeds(h, i)
  }

  function Issued<K(==), V>(h: seq<Call<K, V>>, i: nat): nat
    requires i < |h| && Issues(h, i)
  {
    At(h, i + 1).entities[h[i].k].etag
  }

  /** Call `i` consumed the ETag it named. */
  predicate Consumes<K(==), V>(h: seq<Call<K, V>>, i: nat)
    requires i < |h|
  {
    (h[i].Replacing? || h[i].Deleting?) && Succeeds(h, i)
  }

  // ---------- What every step keeps ----------

  /** Stored ETags were issued, each to one key only. */
  ghost predicate WellTagged<K, V>(s: Rows<K, V>) {
    && (forall k :: k in s.entities ==> 1 <= s.entities[k].etag <= s.version)
    && (forall k, l :: k in s.entities && l in s.entities && s.entities[k].etag == s.entities[l].etag ==> k == l)
  }

  /** `t` follows `s`: a row is either the one it was, or was written since. */
  ghost predicate Follows<K, V>(s: Rows<K, V>, t: Rows<K, V>) {
    && s.version <= t.version
    && forall k :: k in t.entities ==>
         (k in s.entities && t.entities[k] == s.entities[k]) || t.entities[k].etag > s.version
  }

  lemma WriteKeeps<K, V>(s: Rows<K, V>, k: K, v: V)
    requires WellTagged(s) && Write(s, k, v).Ok?
    ensures WellTagged(Write(s, k, v).value) && Follows(s, Write(s, k, v).value)
  {
  }

  lemma RemovalKeeps<K, V>(s: Rows<K, V>, k: K)
    requires WellTagged(s)
    ensures WellTagged(s.(entities := s.entities - {k})) && Follows(s, s.(entities := s.entities - {k}))
  {
  }

  lemma CallKeeps<K, V>(s: Rows<K, V>, c: Call<K, V>)
    requires WellTagged(s)
    ensures WellTagged(After(s, c)) && Follows(s, After(s, c))
  {
    if Answer(s, c).Ok? {
      match c {
        case Get(_) =>
        case Inserting(k, v) => WriteKeeps(s, k, v);
        case Replacing(k, v, _) => WriteKeeps(s, k, v);
        case Deleting(k, _) => RemovalKeeps(s, k);
      }
    }
  }

  lemma {:induction false} HistoryWellTagged<K, V>(h: seq<Call<K, V>>, i: nat)
    requires i <= |h|
    ensures WellTagged(At(h, i))
  {
    if i > 0 {
      HistoryWellTagged(h, i - 1);
      CallKeeps(At(h, i - 1), h[i - 1]);
    }
  }

  lemma {:induction false} HistoryFollows<K, V>(h: seq<Call<K, V>>, i: nat, j: nat)
    requires i <= j <= |h|
    ensures Follows(At(h, i), At(h, j))
  {
    if i < j {
      HistoryFollows(h, i, j - 1);
      HistoryWellTagged(h, j - 1);
      CallKeeps(At(h, j - 1), h[j - 1]);
    }
  }

  // ---------- The guarantees ----------

  /** ETags are issued in strictly increasing order, so none is ever issued twice. */
  lemma IssuedOnce<K, V>(h: seq<Call<K, V>>, i: nat, j: nat)
    requires i < j < |h| && Issues(h, i) && Issues(h, j)
    ensures Issued(h, i) < Issued(h, j)
  {
    HistoryFollows(h, i + 1, j);
  }

  /** A row that carries the same ETag at two moments was the same, and there, all along. */
  lemma EtagPinsRow<K, V>(h: seq<Call<K, V>>, i: nat, m: nat, j: nat, k: K)
    requires i <= m <= j <= |h|
    requires k in At(h, i).entities && k in At(h, j).entities
    requires At(h, i).entities[k].etag == At(h, j).entities[k].etag
    ensures k in At(h, m).entities && At(h, m).entities[k] == At(h, i).entities[k] == At(h, j).entities[k]
  {
    HistoryWellTagged(h, i);
    HistoryFollows(h, i, m);
    HistoryFollows(h, m, j);
    HistoryFollows(h, i, j);
  }

  /** A conditional write that succeeds acts on exactly the row its caller read. */
  lemma ConditionalActsOnRead<K, V>(h: seq<Call<K, V>>, i: nat, m: nat, j: nat, k: K)
    requires i <= m <= j < |h|
    requires h[i] == Get(k) && k in At(h, i).entities
    requires Consumes(h, j) && h[j].k == k && h[j].etag == At(h, i).entities[k].etag
    ensures k in At(h, m).entities && At(h, m).entities[k] == At(h, i).entities[k]
  {
    EtagPinsRow(h, i, m, j, k);
  }

  /** An ETag is consumed at most once, under any key, even across delete and re-insert. */
  lemma ConsumedOnce<K, V>(h: seq<Call<K, V>>, i: nat, j: nat)
    requires i < j < |h| && Consumes(h, i) && Consumes(h, j)
    ensures h[i].etag != h[j].etag
  {
    HistoryWellTagged(h, i);
    HistoryFollows(h, i + 1, j);
    HistoryWellTagged(h, i + 1);
  }

  // ---------- The in-memory store ----------

  datatype Table =
    | Workspaces | Members | UserWorkspaces | PlatformAdmins | Connections
    | Profiles | Gateways | Enrollments | Audit | RevisionMetadata

  datatype Key = Key(table: Table, partition: string, row: string)

  predicate IsControl(c: char) {
    c < ' ' || '\U{7F}' <= c <= '\U{9F}'
  }

  predicate ValidKey(key: string) {
    0 < ByteLength(key) <= 1024 && forall i :: 0 <= i < |key| ==> !IsControl(key[i]) && key[i] !in "/\\#?"
  }

  predicate Quoted(s: string) {
    |s| >= 2 && s[0] == '"' && s[|s| - 1] == '"' && forall i :: 1 <= i < |s| - 1 ==> s[i] != '"'
  }

  /** Quoted, optionally weak, without an inner quote or a control character. */
  predicate ValidEtag(etag: string) {
    && Quoted(if |etag| >= 2 && etag[..2] == "W/" then etag[2..] else etag)
    && (forall i :: 0 <= i < |etag| ==> (etag[i] >= ' ' || etag[i] == '\t') && etag[i] != '\U{7F}')
  }

  /** A key: not empty, at most 1024 bytes, no C0 or C1 control character, slash, backslash, number sign or question mark. */
  lemma KeyExactly(key: string)
    ensures ValidKey(key) <==>
              && key != "" && ByteLength(key) <= 1024
              && forall i :: 0 <= i < |key| ==>
                   && key[i] >= ' ' && !('\U{7F}' <= key[i] <= '\U{9F}')
                   && key[i] != '/' && key[i] != '\\' && key[i] != '#' && key[i] != '?'
  {
  }

  /** A quoted text, seen in the text it ends. */
  lemma QuotedIn(etag: string, start: nat, quoted: string)
    requires start <= |etag| && quoted == etag[start..]
    requires forall i :: 0 <= i < start ==> etag[i] == 'W' || etag[i] == '/'
    ensures (&& Quoted(quoted)
             && (forall i :: 0 <= i < |etag| ==> (etag[i] >= ' ' || etag[i] == '\t') && etag[i] != '\U{7F}')) <==>
            (&& |etag| >= start + 2 && etag[start] == '"' && etag[|etag| - 1] == '"'
             && forall i :: start < i < |etag| - 1 ==>
                  (etag[i] == '\t' || ' ' <= etag[i]) && etag[i] != '"' && etag[i] != '\U{7F}')
  {
    assert forall i :: 0 <= i < |quoted| ==> quoted[i] == etag[start + i];
    assert forall i :: start <= i < |etag| ==> etag[i] == quoted[i - start];
  }

  /** An ETag: a text in quotes without quotes and control characters in it, perhaps after `W/`. */
  lemma EtagExactly(etag: string)
    ensures ValidEtag(etag) <==>
              var start := if |etag| >= 2 && etag[0] == 'W' && etag[1] == '/' then 2 else 0;
              && |etag| >= start + 2 && etag[start] == '"' && etag[|etag| - 1] == '"'
              && forall i :: start < i < |etag| - 1 ==>
                   (etag[i] == '\t' || ' ' <= etag[i]) && etag[i] != '"' && etag[i] != '\U{7F}'
  {
    if |etag| >= 2 {
      var weak := etag[..2];
      assert weak == [etag[0], etag[1]];
      if etag[0] == 'W' && etag[1] == '/' {
        assert weak == "W/";
        QuotedIn(etag, 2, etag[2..]);
      } else {
        assert weak[0] != 'W' || weak[1] != '/';
        QuotedIn(etag, 0, etag);
      }
    }
  }

  function EtagText(version: nat): string {
    "\"" + Decimal(version) + "\""
  }

  /** Issued ETags pass validation, and different versions never share a text. */
  lemma EtagTextIsFaithful(m: nat, n: nat)
    ensures ValidEtag(EtagText(m))
    ensures EtagText(m) == EtagText(n) ==> m == n
  {
    assert EtagText(m)[0] == '"';
    assert EtagText(m)[..2] != "W/" by {
      assert EtagText(m)[..2][0] == '"';
    }
    if EtagText(m) == EtagText(n) {
      assert EtagText(m)[1..|EtagText(m)| - 1] == Decimal(m);
      assert EtagText(n)[1..|EtagText(n)| - 1] == Decimal(n);
      DecimalInjective(m, n);
    }
  }

  class InMemoryMetadataStore<V> {
    var state: Rows<Key, V>

    constructor ()
      ensures state == Rows(map[], 0)
    {
      state := Rows(map[], 0);
    }

    method Get(table: Table, partition: string, row: string) returns (r: Outcome<Option<Entity<V>>>)
      ensures ValidKey(partition) && ValidKey(row) ==>
                var k := Key(table, partition, row);
                r == Ok(if k in state.entities then Some(state.entities[k]) else None)
      ensures !(ValidKey(partition) && ValidKey(row)) ==> r == Err(BadRequest)
    {
      if !ValidKey(partition) || !ValidKey(row) {
        return Err(BadRequest);
      }
      var k := Key(table, partition, row);
      return Ok(if k in state.entities then Some(state.entities[k]) else None);
    }

    /** `memory_entity` and the map update that follows it. */
    method Save(k: Key, data: V) returns (r: Outcome<Entity<V>>)
      modifies this
      ensures match Write(old(state), k, data)
              case Ok(t) => state == t && r == Ok(t.entities[k])
              case Err(why) => state == old(state) && r == Err(why)
      ensures var next := old(state).version + 1;
              if next > 0xFFFF_FFFF_FFFF_FFFF then r == Err(Unavailable) && state == old(state)
              else r == Ok(Entity(data, next)) && state == Rows(old(state).entities[k := Entity(data, next)], next)
    {
      if state.version >= MAX_U64 {
        return Err(Unavailable);
      }
      var entity := Entity(data, state.version + 1);
      state := state.(version := state.version + 1);
      state := state.(entities := state.entities[k := entity]);
      return Ok(entity);
    }

    method Insert(table: Table, partition: string, row: string, data: V) returns (r: Outcome<Entity<V>>)
      modifies this
      ensures ValidKey(partition) && ValidKey(row) ==>
                match InsertRow(old(state), Key(table, partition, row), data)
                case Ok(t) => state == t && r == Ok(t.entities[Key(table, partition, row)])
                case Err(why) => state == old(state) && r == Err(why)
      ensures !(ValidKey(partition) && ValidKey(row)) ==> state == old(state) && r == Err(BadRequest)
      ensures ValidKey(partition) && ValidKey(row) ==>
                var k, next := Key(table, partition, row), old(state).version + 1;
                if k in old(state).entities then r == Err(Conflict) && state == old(state)
                else if next > 0xFFFF_FFFF_FFFF_FFFF then r == Err(Unavailable) && state == old(state)
                else r == Ok(Entity(data, next)) && state == Rows(old(state).entities[k := Entity(data, next)], next)
    {
      if !ValidKey(partition) || !ValidKey(row) {
        return Err(BadRequest);
      }
      var k := Key(table, partition, row);
      if k in state.entities {
        return Err(Conflict);
      }
      r := Save(k, data);
    }

    method Replace(table: Table, partition: string, row: string, data: V, etag: string) returns (r: Outcome<Entity<V>>)
      modifies this
      ensures ValidKey(partition) && ValidKey(row) ==>
                forall version :: etag == EtagText(version) ==>
                  match ReplaceRow(old(state), Key(table, partition, row), data, version)
                  case Ok(t) => state == t && r == Ok(t.entities[Key(table, partition, row)])
                  case Err(why) => state == old(state) && r == Err(why)
      ensures (forall version :: etag != EtagText(version)) ==> state == old(state) && r.Err?
      ensures !(ValidKey(partition) && ValidKey(row) && ValidEtag(etag)) ==> state == old(state) && r == Err(BadRequest)
      ensures ValidKey(partition) && ValidKey(row) && ValidEtag(etag) ==>
                var k, next := Key(table, partition, row), old(state).version + 1;
                if k !in old(state).entities then r == Err(NotFound) && state == old(state)
                else if etag != "\"" + Decimal(old(state).entities[k].etag) + "\"" then r == Err(Conflict) && state == old(state)
                else if next > 0xFFFF_FFFF_FFFF_FFFF then r == Err(Unavailable) && state == old(state)
                else r == Ok(Entity(data, next)) && state == Rows(old(state).entities[k := Entity(data, next)], next)
    {
      var k := Key(table, partition, row);
      ghost var known := if k in state.entities then state.entities[k].etag else 0;
      forall version | etag == EtagText(version)
        ensures ValidEtag(etag) && (EtagText(known) == etag ==> known == version)
      {
        EtagTextIsFaithful(version, known);
      }
      if !ValidKey(partition) || !ValidKey(row) || !ValidEtag(etag) {
        return Err(BadRequest);
      }
      if k !in state.entities {
        return Err(NotFound);
      }
      if EtagText(state.entities[k].etag) != etag {
        return Err(Conflict);
      }
      r := Save(k, data);
    }

    method Delete(table: Table, partition: string, row: string, etag: string) returns (r: Outcome<()>)
      modifies this
      ensures ValidKey(partition) && ValidKey(row) ==>
                forall version :: etag == EtagText(version) ==>
                  match DeleteRow(old(state), Key(table, partition, row), version)
                  case Ok(t) => state == t && r == Ok(())
                  case Err(why) => state == old(state) && r == Err(why)
      ensures (forall version :: etag != EtagText(version)) ==> state == old(state) && r.Err?
      ensures !(ValidKey(partition) && ValidKey(row) && ValidEtag(etag)) ==> state == old(state) && r == Err(BadRequest)
      ensures ValidKey(partition) && ValidKey(row) && ValidEtag(etag) ==>
                var k := Key(table, partition, row);
                if k !in old(state).entities then r == Err(NotFound) && state == old(state)
                else if etag != "\"" + Decimal(old(state).entities[k].etag) + "\"" then r == Err(Conflict) && state == old(state)
                else r == Ok(()) && state == Rows(old(state).entities - {k}, old(state).version)
    {
      var k := Key(table, partition, row);
      ghost var known := if k in state.entities then state.entities[k].etag else 0;
      forall version | etag == EtagText(version)
        ensures ValidEtag(etag) && (EtagText(known) == etag ==> known == version)
      {
        EtagTextIsFaithful(version, known);
      }
      if !ValidKey(partition) || !ValidKey(row) || !ValidEtag(etag) {
        return Err(BadRequest);
      }
      if k !in state.entities {
        return Err(NotFound);
      }
      if EtagText(state.entities[k].etag) != etag {
        return Err(Conflict);
      }
      state := state.(entities := state.entities - {k});
      return Ok(());
    }

    /** Every row of the partition. */
    method List(table: Table, partition: string) returns (r: Outcome<map<Key, Entity<V>>>)
      ensures !ValidKey(partition) ==> r == Err(BadRequest)
      ensures ValidKey(partition) ==>
                && r.Ok?
                && (forall k :: k in r.value <==> k in state.entities && k.table == table && k.partition == partition)
                && (forall k :: k in r.value ==> r.value[k] == state.entities[k])
    {
      if !ValidKey(partition) {
        return Err(BadRequest);
      }
      return Ok(map k | k in state.entities && k.table == table && k.partition == partition :: state.entities[k]);
    }
  }
}
