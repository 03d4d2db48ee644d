/**
  The `refresh_tokens` table and the SQL statements that touch it
  (app/repositories/repo_refresh_token.py).

  The table is a map from primary key to row.  Every statement is first a function from
  table to table; the class `RefreshTokenRepository` performs it in place inside a
  transaction and is proved against that function.
*/
module TokenTable {
  import opened Wrappers

  type Principal = nat
  type Family = string
  type Time = int

  datatype Row = Row(
    principal: Principal,
    family: Family,
    expires: Time,
    revokedAt: Option<Time>,
    replacedBy: Option<nat>
  ) {
    predicate Unrevoked() { revokedAt.None? }
  }

  type Table = map<nat, Row>

  // ------------------------------------------------------------------ statements

  /** The WHERE clause of the compare-and-set. */
  predicate Consumable(t: Table, id: nat) {
    id in t && t[id].Unrevoked()
  }

  /** UPDATE ... SET revoked_at, replaced_by_id WHERE id = :id AND revoked_at IS NULL */
  function Consumed(t: Table, id: nat, at: Time, next: Option<nat>): Table {
    if Consumable(t, id) then t[id := t[id].(revokedAt := Some(at), replacedBy := next)] else t
  }

  /** UPDATE ... SET revoked_at WHERE <matches> AND revoked_at IS NULL */
  function RevokedWhere(t: Table, matches: Row -> bool, at: Time): Table {
    map i | i in t ::
      if matches(t[i]) && t[i].Unrevoked() then t[i].(revokedAt := Some(at)) else t[i]
  }

  function RevokedFamily(t: Table, f: Family, at: Time): Table {
    RevokedWhere(t, (r: Row) => r.family == f, at)
  }

  function RevokedPrincipal(t: Table, p: Principal, at: Time): Table {
    RevokedWhere(t, (r: Row) => r.principal == p, at)
  }

  /** UPDATE ... SET revoked_at WHERE id = :id, the unguarded write of a logout. */
  function Stamped(t: Table, id: nat, at: Time): Table {
    if id in t then t[id := t[id].(revokedAt := Some(at))] else t
  }

  /** DELETE WHERE expires_at <= :before, with ON DELETE SET NULL on `replaced_by_id`. */
  function Purged(t: Table, before: Time): Table {
    map i | i in t && t[i].expires > before ::
      if t[i].replacedBy.Some? && t[i].replacedBy.value in t && t[t[i].replacedBy.value].expires <= before
      then t[i].(replacedBy := None)
      else t[i]
  }

  /** EXISTS (family, not revoked, not expired at `now`). */
  predicate HasLiveTokensInFamily(t: Table, f: Family, now: Time) {
    exists i :: i in t && t[i].family == f && t[i].Unrevoked() && t[i].expires > now
  }

  // ------------------------------------------------------------------ shape of the table

  /** No row of the family is unrevoked. */
  predicate Dead(t: Table, f: Family) {
    forall i | i in t && t[i].family == f :: !t[i].Unrevoked()
  }

  /** `n` is the next row of the family after `i`. */
  predicate NextInFamily(t: Table, i: nat, n: nat) {
    && i in t && n in t && i < n
    && t[n].family == t[i].family
    && forall j | j in t && t[j].family == t[i].family :: !(i < j < n)
  }

  predicate NewestOfFamily(t: Table, i: nat) {
    i in t && forall j | j in t && t[j].family == t[i].family :: j <= i
  }

  /** Row `i` is either the newest of its family or points, revoked, at the very next one. */
  predicate Linked(t: Table, i: nat)
    requires i in t
  {
    match t[i].replacedBy
    case None => NewestOfFamily(t, i)
    case Some(n) => !t[i].Unrevoked() && NextInFamily(t, i, n) && t[n].principal == t[i].principal
  }

  predicate ExpiryOrdered(t: Table, i: nat, j: nat)
    requires i in t && j in t
  {
    t[i].family == t[j].family && i < j ==> t[i].expires <= t[j].expires
  }

  /** Every family is one chain in id order, and expiry never decreases along it. */
  predicate Chained(t: Table) {
    && (forall i {:trigger Linked(t, i)} | i in t :: Linked(t, i))
    && (forall i, j {:trigger ExpiryOrdered(t, i, j)} | i in t && j in t :: ExpiryOrdered(t, i, j))
  }

  // ------------------------------------------------------------------ what the statements keep

  /** `u` is `t` after revoking some rows: nothing else changed, nothing was un-revoked. */
  predicate OnlyRevokes(t: Table, u: Table) {
    && u.Keys == t.Keys
    && forall i | i in t ::
      && u[i] == t[i].(revokedAt := u[i].revokedAt)
      && (u[i].Unrevoked() ==> t[i].Unrevoked())
  }

  lemma RevokedWhereOnlyRevokes(t: Table, matches: Row -> bool, at: Time)
    ensures OnlyRevokes(t, RevokedWhere(t, matches, at))
    ensures forall i | i in t && matches(t[i]) :: !RevokedWhere(t, matches, at)[i].Unrevoked()
  {
  }

  lemma RevokingKeepsChains(t: Table, u: Table)
    requires Chained(t) && OnlyRevokes(t, u)
    ensures Chained(u)
    ensures forall f | Dead(t, f) :: Dead(u, f)
  {
    forall i | i in u
      ensures Linked(u, i)
    {
      assert Linked(t, i);
    }
    forall i, j | i in u && j in u
      ensures ExpiryOrdered(u, i, j)
    {
      assert ExpiryOrdered(t, i, j);
    }
  }

  /** In a chained table the unrevoked row of a family, if any, is its newest and only one. */
  lemma UnrevokedIsNewest(t: Table, i: nat)
    requires Chained(t) && Consumable(t, i)
    ensures NewestOfFamily(t, i)
    ensures forall j | j in t && t[j].family == t[i].family && t[j].Unrevoked() :: j == i
  {
    assert Linked(t, i);
    forall j | j in t && t[j].family == t[i].family && t[j].Unrevoked()
      ensures j == i
    {
      assert Linked(t, j);
    }
  }

  /** Two rows never have the same successor. */
  lemma SuccessorsAreDistinct(t: Table, i: nat, j: nat)
    requires Chained(t) && i in t && j in t
    requires t[i].replacedBy.Some? && t[i].replacedBy == t[j].replacedBy
    ensures i == j
  {
    assert Linked(t, i) && Linked(t, j);
  }

  /** The first row of a brand-new family. */
  lemma IssuingKeepsChains(t: Table, n: nat, r: Row)
    requires Chained(t) && n !in t
    requires r.replacedBy.None? && forall i | i in t :: t[i].family != r.family
    ensures Chained(t[n := r])
    ensures forall f | Dead(t, f) && f != r.family :: Dead(t[n := r], f)
  {
    var u := t[n := r];
    forall i | i in u
      ensures Linked(u, i)
    {
      if i != n {
        assert Linked(t, i);
      }
    }
    forall i, j | i in u && j in u
      ensures ExpiryOrdered(u, i, j)
    {
      assert i != n && j != n ==> ExpiryOrdered(t, i, j);
    }
  }

  /** A won rotation: consume `id` and append its successor `n`. */
  lemma RotatingKeepsChains(t: Table, id: nat, at: Time, n: nat, r: Row)
    requires Chained(t) && Consumable(t, id)
    requires forall i | i in t :: i < n
    requires r.replacedBy.None? && r.principal == t[id].principal && r.family == t[id].family
    requires forall i | i in t && t[i].family == r.family :: t[i].expires <= r.expires
    ensures Chained(Consumed(t, id, at, Some(n))[n := r])
  {
    var u := Consumed(t, id, at, Some(n))[n := r];
    UnrevokedIsNewest(t, id);
    forall i | i in u
      ensures Linked(u, i)
    {
      if i != n {
        assert Linked(t, i);
      }
    }
    forall i, j | i in u && j in u
      ensures ExpiryOrdered(u, i, j)
    {
      assert i != n && j != n ==> ExpiryOrdered(t, i, j);
    }
  }

  lemma PurgeLeavesLink(t: Table, before: Time, i: nat)
    requires Chained(t) && i in Purged(t, before)
    ensures Purged(t, before)[i] == t[i] && Linked(Purged(t, before), i)
  {
    assert Linked(t, i);
    assert t[i].replacedBy.Some? ==> ExpiryOrdered(t, i, t[i].replacedBy.value);
  }

  /** A purge cuts a prefix of each chain and leaves no pointer at a deleted row. */
  lemma PurgeCutsPrefixes(t: Table, before: Time)
    requires Chained(t)
    ensures forall i, j | i in t && j in t && t[i].family == t[j].family && i < j && j !in Purged(t, before) ::
              i !in Purged(t, before)
    ensures forall i | i in Purged(t, before) :: Purged(t, before)[i] == t[i]
    ensures Chained(Purged(t, before))
  {
    var u := Purged(t, before);
    forall i, j | i in t && j in t && t[i].family == t[j].family && i < j && j !in u
      ensures i !in u
    {
      assert ExpiryOrdered(t, i, j);
    }
    forall i | i in u
      ensures u[i] == t[i] && Linked(u, i)
    {
      PurgeLeavesLink(t, before, i);
    }
    forall i, j | i in u && j in u
      ensures ExpiryOrdered(u, i, j)
    {
      PurgeLeavesLink(t, before, i);
      PurgeLeavesLink(t, before, j);
      assert ExpiryOrdered(t, i, j);
    }
  }

  /** No liveness query at the purge's own time or later can tell that it ran. */
  lemma PurgeIsInvisibleToLiveness(t: Table, before: Time, f: Family, now: Time)
    requires before <= now
    ensures HasLiveTokensInFamily(Purged(t, before), f, now) <==> HasLiveTokensInFamily(t, f, now)
  {
    var u := Purged(t, before);
    if HasLiveTokensInFamily(t, f, now) {
      var i :| i in t && t[i].family == f && t[i].Unrevoked() && t[i].expires > now;
      assert i in u && u[i].family == f && u[i].Unrevoked() && u[i].expires > now;
    }
    if HasLiveTokensInFamily(u, f, now) {
      var i :| i in u && u[i].family == f && u[i].Unrevoked() && u[i].expires > now;
      assert i in t && t[i].family == f && t[i].Unrevoked() && t[i].expires > now;
    }
  }

  // ------------------------------------------------------------------ the repository, in place

  /** The table inside one database session: `rows` is what this session sees, `committed`
      is what everybody else sees.  `nextId` is the auto-increment counter, which a rollback
      does not give back. */
  class RefreshTokenRepository {
    var rows: Table
    var committed: Table
    var nextId: nat

    ghost predicate Valid()
      reads this
    {
      && (forall i | i in rows :: i < nextId)
      && (forall i | i in committed :: i < nextId)
    }

    constructor ()
      ensures Valid() && rows == committed == map[] && nextId == 0
    {
      rows, committed, nextId := map[], map[], 0;
    }

    method Commit()
      requires Valid()
      modifies this`committed
      ensures Valid() && committed == rows
    {
      committed := rows;
    }

    method Rollback()
      requires Valid()
      modifies this`rows
      ensures Valid() && rows == committed
    {
      rows := committed;
    }

    method Add(r: Row) returns (id: nat)
      requires Valid()
      modifies this`rows, this`nextId
      ensures Valid() && id == old(nextId) && nextId == id + 1
      ensures id !in old(rows) && rows == old(rows)[id := r]
    {
      id := nextId;
      rows := rows[id := r];
      nextId := nextId + 1;
    }

    method GetByHash(token: nat) returns (r: Option<Row>)
      ensures r == if token in rows then Some(rows[token]) else None
    {
      if token in rows {
        r := Some(rows[token]);
      } else {
        r := None;
      }
    }

    /** At most one caller ever wins a given id: the winner leaves it not consumable. */
    method Consume(id: nat, at: Time, next: Option<nat>) returns (won: bool)
      requires Valid()
      modifies this`rows
      ensures Valid() && rows == Consumed(old(rows), id, at, next)
      ensures won <==> id in old(rows) && old(rows)[id].revokedAt == None
      ensures won ==> rows == old(rows)[id := old(rows)[id].(revokedAt := Some(at), replacedBy := next)]
      ensures !Consumable(rows, id)
      ensures !won ==> rows == old(rows)
    {
      won := id in rows && rows[id].revokedAt.None?;
      if won {
        rows := rows[id := rows[id].(revokedAt := Some(at), replacedBy := next)];
      }
    }

    method RevokeFamily(f: Family, at: Time) returns (count: nat)
      requires Valid()
      modifies this`rows
      ensures Valid() && rows == RevokedFamily(old(rows), f, at)
      ensures Dead(rows, f) && OnlyRevokes(old(rows), rows)
      ensures forall i | i in rows && rows[i] != old(rows)[i] ::
                rows[i].family == f && old(rows)[i].revokedAt == None && rows[i].revokedAt == Some(at)
      ensures count == |set i | i in old(rows) && old(rows)[i].family == f && old(rows)[i].Unrevoked()|
    {
      count := |set i | i in rows && rows[i].family == f && rows[i].Unrevoked()|;
      rows := RevokedFamily(rows, f, at);
    }

    method RevokeAllForPrincipal(p: Principal, at: Time) returns (count: nat)
      requires Valid()
      modifies this`rows
      ensures Valid() && rows == RevokedPrincipal(old(rows), p, at)
      ensures forall i | i in rows && rows[i].principal == p :: !rows[i].Unrevoked()
      ensures OnlyRevokes(old(rows), rows)
      ensures forall i | i in rows && rows[i] != old(rows)[i] ::
                rows[i].principal == p && old(rows)[i].revokedAt == None && rows[i].revokedAt == Some(at)
      ensures count == |set i | i in old(rows) && old(rows)[i].principal == p && old(rows)[i].Unrevoked()|
    {
      count := |set i | i in rows && rows[i].principal == p && rows[i].Unrevoked()|;
      rows := RevokedPrincipal(rows, p, at);
    }

    method Stamp(id: nat, at: Time)
      requires Valid()
      modifies this`rows
      ensures Valid() && rows == Stamped(old(rows), id, at) && OnlyRevokes(old(rows), rows)
      ensures id in rows ==> rows == old(rows)[id := old(rows)[id].(revokedAt := Some(at))]
    {
      if id in rows {
        rows := rows[id := rows[id].(revokedAt := Some(at))];
      }
    }

    method DeleteExpired(before: Time) returns (count: nat)
      requires Valid()
      modifies this`rows
      ensures Valid() && rows == Purged(old(rows), before)
      ensures forall i :: i in rows <==> i in old(rows) && old(rows)[i].expires > before
      ensures forall i | i in rows :: rows[i] == old(rows)[i].(replacedBy := rows[i].replacedBy)
      ensures count == |set i | i in old(rows) && old(rows)[i].expires <= before|
    {
      count := |set i | i in rows && rows[i].expires <= before|;
      rows := Purged(rows, before);
    }
  }
}
