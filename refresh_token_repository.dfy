/** The refresh-token table behind `RefreshTokenRepository`. */
module RefreshTokenStore {
  import opened Outcomes

  /** One stored refresh credential. `expiresAt` is in milliseconds since the epoch. */
  datatype RefreshToken = RefreshToken(id: string, token: string, userId: string, expiresAt: int)

  ghost predicate WellFormed(rows: map<string, RefreshToken>) {
    forall id :: id in rows ==> rows[id].id == id
  }

  /** The filter of `findValidToken`: the stored token equals the key and expires after now. */
  predicate IsValidToken(t: RefreshToken, token: string, now: int) {
    t.token == token && t.expiresAt > now
  }

  /** Some stored record passes that filter. */
  predicate HasValidToken(rows: map<string, RefreshToken>, token: string, now: int) {
    exists id :: id in rows && IsValidToken(rows[id], token, now)
  }

  /** Ids of the records owned by `userId`. */
  function OwnedBy(rows: map<string, RefreshToken>, userId: string): set<string> {
    set id | id in rows && rows[id].userId == userId
  }

  /** The table after deleting every record of `userId`. */
  function WithoutUser(rows: map<string, RefreshToken>, userId: string): (r: map<string, RefreshToken>)
    ensures forall id :: id in r <==> id in rows && rows[id].userId != userId
    ensures forall id :: id in r ==> r[id] == rows[id]
  {
    map id | id in rows && rows[id].userId != userId :: rows[id]
  }

  /** Bulk revocation removes exactly the user's records: what is left plus what was counted
      is the whole table, and nothing the user owned survives. */
  lemma {:induction false} WithoutUserCount(rows: map<string, RefreshToken>, userId: string)
    ensures |WithoutUser(rows, userId).Keys| + |OwnedBy(rows, userId)| == |rows.Keys|
    ensures OwnedBy(WithoutUser(rows, userId), userId) == {}
  {
    var kept := WithoutUser(rows, userId).Keys;
    var owned := OwnedBy(rows, userId);
    assert kept + owned == rows.Keys;
    assert kept !! owned;
  }

  /** After bulk revocation no record of the user passes the validity filter, whatever the key. */
  lemma NoValidTokenOfRevokedUser(rows: map<string, RefreshToken>, userId: string, token: string, now: int)
    ensures forall id :: id in WithoutUser(rows, userId) && IsValidToken(WithoutUser(rows, userId)[id], token, now)
                         ==> WithoutUser(rows, userId)[id].userId != userId
  {
  }

  class RefreshTokenRepository {
    var rows: map<string, RefreshToken>

    ghost predicate Valid()
      reads this
    {
      WellFormed(rows)
    }

    constructor ()
      ensures Valid() && rows == map[]
    {
      rows := map[];
    }

    /** `create`: one new record with exactly the given fields, under a fresh id. */
    method Create(id: string, token: string, userId: string, expiresAt: int) returns (t: RefreshToken)
      requires Valid() && id !in rows
      modifies this
      ensures Valid()
      ensures t == RefreshToken(id, token, userId, expiresAt)
      ensures rows == old(rows)[id := t]
    {
      t := RefreshToken(id, token, userId, expiresAt);
      rows := rows[id := t];
    }

    /** `findValidToken`: some record whose
        token equals `token` exactly and that expires strictly after `now`, or none. */
    method FindValidToken(token: string, now: int) returns (r: Option<RefreshToken>)
      requires Valid()
      ensures r.Some? <==> HasValidToken(rows, token, now)
      ensures r.Some? ==> r.value.id in rows && rows[r.value.id] == r.value && IsValidToken(r.value, token, now)
    {
      if HasValidToken(rows, token, now) {
        var id :| id in rows && IsValidToken(rows[id], token, now);
        r := Some(rows[id]);
      } else {
        r := None;
      }
    }

    /** `revokeToken`: removes that one record; None when there was none
        (the store then throws). */
    method RevokeToken(id: string) returns (r: Option<RefreshToken>)
      requires Valid()
      modifies this
      ensures Valid()
      ensures rows == old(rows) - {id}
      ensures r == (if id in old(rows) then Some(old(rows)[id]) else None)
    {
      r := if id in rows then Some(rows[id]) else None;
      rows := rows - {id};
    }

    /** `revokeAllForUser`: removes every record of the user and no other,
        and reports how many went. */
    method RevokeAllForUser(userId: string) returns (count: nat)
      requires Valid()
      modifies this
      ensures Valid()
      ensures rows == WithoutUser(old(rows), userId)
      ensures count == |OwnedBy(old(rows), userId)|
      ensures count + |rows.Keys| == |old(rows).Keys|
    {
      count := |OwnedBy(rows, userId)|;
      WithoutUserCount(rows, userId);
      rows := WithoutUser(rows, userId);
    }
  }
}
