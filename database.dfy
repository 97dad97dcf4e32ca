/** The data-access layer: the age computed when a user registers, and the
    lazily opened store connection that every query shares. What the store
    does with a statement (SQL, rows, commit) is outside the model: each
    query receives the store's answer as a parameter. */
module Database {
  import opened Values

  /** A calendar date, compared as Python compares `date` objects. */
  datatype Date = Date(year: int, month: int, day: int)

  /** `(a.month, a.day) < (b.month, b.day)`: Python compares the tuples
      lexicographically. */
  predicate MonthDayBefore(a: Date, b: Date)
  {
    a.month < b.month || (a.month == b.month && a.day < b.day)
  }

  /** `a <= b` on dates: year first, then month, then day. */
  predicate DateLeq(a: Date, b: Date)
  {
    a.year < b.year ||
    (a.year == b.year && (a.month < b.month || (a.month == b.month && a.day <= b.day)))
  }

  /** The age stored by `register_user`: the year difference, less one
      when this year's birthday is still to come. */
  function AgeOn(birth: Date, today: Date): (age: int)
    ensures age == today.year - birth.year || age == today.year - birth.year - 1
    ensures age == today.year - birth.year - 1 <==> MonthDayBefore(today, birth)
  {
    today.year - birth.year - (if MonthDayBefore(today, birth) then 1 else 0)
  }

  /** The date `n` years after `birth`, on the same month and day. */
  function Anniversary(birth: Date, n: int): Date
  {
    Date(birth.year + n, birth.month, birth.day)
  }

  /** The age is the number of birthdays reached: the `n`-th anniversary
      falls on or before `today` exactly when `n` is at most the age. */
  lemma AgeCountsAnniversaries(birth: Date, today: Date, n: int)
    ensures DateLeq(Anniversary(birth, n), today) <==> n <= AgeOn(birth, today)
  {
  }

  /** No one born on or before `today` has a negative age, and one born
      exactly `k` years ago to the day is `k`. */
  lemma AgeBounds(birth: Date, today: Date)
    ensures DateLeq(birth, today) ==> AgeOn(birth, today) >= 0
    ensures today == Anniversary(birth, today.year - birth.year) ==>
              AgeOn(birth, today) == today.year - birth.year
  {
    AgeCountsAnniversaries(birth, today, 0);
    assert Anniversary(birth, 0) == birth;
  }

  lemma AgeExamples()
    ensures AgeOn(Date(2000, 5, 1), Date(2024, 4, 1)) == 23
    ensures AgeOn(Date(2000, 5, 1), Date(2024, 5, 1)) == 24
    ensures AgeOn(Date(2000, 5, 1), Date(2024, 6, 1)) == 24
  {
  }

  /** An open connection; only its identity matters to the model. */
  datatype Handle = Handle(id: nat)

  /** The row `register_user` inserts into the user table. */
  datatype UserRow = UserRow(
    username: string, email: string, birthDate: Date, age: int, gender: string, country: string)

  class Db {
    /** `self.connection`: None until a connection attempt succeeds. */
    var connection: Option<Handle>
    /** How many times `connect` has been called. */
    ghost var connectAttempts: nat

    constructor ()
      ensures connection == None && connectAttempts == 0
    {
      connection := None;
      connectAttempts := 0;
    }

    /** `connect`. `attempt` is what the driver's connect call produced: a
        handle, or None when it raised. On failure the assignment to the
        field never happens, so the old value stays. */
    method Connect(attempt: Option<Handle>) returns (ok: bool)
      modifies this
      ensures ok == attempt.Some?
      ensures connection == if ok then attempt else old(connection)
      ensures connectAttempts == old(connectAttempts) + 1
    {
      connectAttempts := connectAttempts + 1;
      if attempt.Some? {
        connection := attempt;
        ok := true;
      } else {
        ok := false;
      }
    }

    /** The guard `if not self.connection: self.connect()` that opens every
        query: connect exactly when no connection is held, and never touch a
        connection already held. */
    method EnsureConnection(attempt: Option<Handle>)
      modifies this
      ensures old(connection).Some? ==>
                connection == old(connection) && connectAttempts == old(connectAttempts)
      ensures old(connection).None? ==>
                connection == attempt && connectAttempts == old(connectAttempts) + 1
    {
      if connection.None? {
        var _ := Connect(attempt);
      }
    }

    /** `register_user`. `today` stands for `date.today()`; `accepted` says
        whether the store took the INSERT and the commit. With no connection
        the cursor call fails and the method answers false; with one, the
        row carrying the computed age is sent. */
    method RegisterUser(username: string, email: string, birthDate: Date, gender: string,
                        country: string, today: Date, attempt: Option<Handle>, accepted: bool)
      returns (ok: bool, sent: Option<UserRow>)
      modifies this
      ensures old(connection).Some? ==>
                connection == old(connection) && connectAttempts == old(connectAttempts)
      ensures old(connection).None? ==>
                connection == attempt && connectAttempts == old(connectAttempts) + 1
      ensures sent == if connection.Some?
                      then Some(UserRow(username, email, birthDate, AgeOn(birthDate, today), gender, country))
                      else None
      ensures ok <==> sent.Some? && accepted
    {
      EnsureConnection(attempt);
      if connection.None? {
        return false, None;
      }
      sent := Some(UserRow(username, email, birthDate, AgeOn(birthDate, today), gender, country));
      ok := accepted;
    }

    /** `add_nomination` (its statement is a placeholder): true exactly when
        a connection is held after the guard and the store accepts. */
    method AddNomination(userId: int, staffId: int, movieId: int, category: string,
                         attempt: Option<Handle>, accepted: bool)
      returns (ok: bool)
      modifies this
      ensures old(connection).Some? ==>
                connection == old(connection) && connectAttempts == old(connectAttempts)
      ensures old(connection).None? ==>
                connection == attempt && connectAttempts == old(connectAttempts) + 1
      ensures ok <==> connection.Some? && accepted
    {
      EnsureConnection(attempt);
      ok := connection.Some? && accepted;
    }

    /** The list queries (`get_user_nominations`, `get_top_nominated_movies`,
        `get_top_actor_birth_countries`, `get_staff_by_country`,
        `get_top_production_companies`, `get_non_english_oscar_winners`,
        `get_staff_list`). `answer` is what `fetchall()` returned, or None
        when the store raised; every failure becomes the empty list. */
    method FetchAll(attempt: Option<Handle>, answer: Option<seq<Record>>) returns (rows: seq<Record>)
      modifies this
      ensures old(connection).Some? ==>
                connection == old(connection) && connectAttempts == old(connectAttempts)
      ensures old(connection).None? ==>
                connection == attempt && connectAttempts == old(connectAttempts) + 1
      ensures rows == if connection.Some? && answer.Some? then answer.value else []
    {
      EnsureConnection(attempt);
      if connection.Some? && answer.Some? {
        rows := answer.value;
      } else {
        rows := [];
      }
    }

    /** `get_staff_stats`: `fetchone() or {}`. `answer` is None when the
        store raised, Some(None) when no row came back. */
    method FetchOne(attempt: Option<Handle>, answer: Option<Option<Record>>) returns (row: Record)
      modifies this
      ensures old(connection).Some? ==>
                connection == old(connection) && connectAttempts == old(connectAttempts)
      ensures old(connection).None? ==>
                connection == attempt && connectAttempts == old(connectAttempts) + 1
      ensures row == if connection.Some? && answer.Some? && answer.value.Some?
                     then answer.value.value else map[]
    {
      EnsureConnection(attempt);
      if connection.Some? && answer.Some? && answer.value.Some? {
        row := answer.value.value;
      } else {
        row := map[];
      }
    }
  }

  /** Two queries in a row on a fresh client: the first query's guard
      connects; the second query's guard connects again only when the first
      attempt left the field unset, and otherwise reuses the connection. */
  method TwoQueries(first: Option<Handle>, second: Option<Handle>) returns (db: Db)
    ensures first.Some? ==> db.connection == first && db.connectAttempts == 1
    ensures first.None? ==> db.connection == second && db.connectAttempts == 2
  {
    db := new Db();
    var _ := db.FetchAll(first, Some([]));
    var _ := db.FetchAll(second, Some([]));
  }
}
