/**
 * `DatabaseStorage` of server/storage.ts over an in-memory copy of its two tables.
 * Each table is a sequence of rows in insertion order together with the next value of
 * its `serial` id column; the unique constraints on `users.username` and
 * `waitlist_signups.email` are enforced on insert, as PostgreSQL does.
 */
module WaitlistStorage {
  import opened Wrappers
  import opened Schema

  /** The only database error the modelled inserts can raise. */
  datatype DbError = UniqueViolation(constraint: string)

  const SignupEmailConstraint: string := "waitlist_signups_email_unique"
  const UsernameConstraint: string := "users_username_unique"

  /** Milliseconds in a day, `24 * 60 * 60 * 1000`. */
  const DayMs: int := 24 * 60 * 60 * 1000

  // ---------------------------------------------------------------- SELECT ... WHERE

  /** The first element of `s` satisfying `p`: `const [row] = await db.select()...where(p)`. */
  function FindFirst<T>(s: seq<T>, p: T -> bool): (r: Option<T>)
    ensures r.Some? ==> r.value in s && p(r.value)
    ensures r.None? <==> forall i :: 0 <= i < |s| ==> !p(s[i])
    ensures r.Some? ==> exists i :: 0 <= i < |s| && s[i] == r.value && forall j :: 0 <= j < i ==> !p(s[j])
  {
    if s == [] then None
    else if p(s[0]) then Some(s[0])
    else
      var r := FindFirst(s[1..], p);
      assert forall i :: 0 < i < |s| ==> s[i] == s[1..][i - 1];
      r
  }

  /** No two rows share an e-mail address (the `unique()` on `email`). */
  predicate UniqueEmails(rows: seq<SignupRow>) {
    forall i, j :: 0 <= i < j < |rows| ==> rows[i].email != rows[j].email
  }

  /** No two users share a username (the `unique()` on `username`). */
  predicate UniqueUsernames(rows: seq<UserRow>) {
    forall i, j :: 0 <= i < j < |rows| ==> rows[i].username != rows[j].username
  }

  // ---------------------------------------------------------------- ORDER BY timestamp DESC

  /** Timestamps never increase along `rows`: newest first. */
  predicate NewestFirst(rows: seq<SignupRow>) {
    forall i, j :: 0 <= i < j < |rows| ==> rows[i].timestamp >= rows[j].timestamp
  }

  /** Puts `row` into a newest-first sequence before the first row that is not newer. */
  function InsertByTime(row: SignupRow, rows: seq<SignupRow>): (r: seq<SignupRow>)
    requires NewestFirst(rows)
    ensures |r| == |rows| + 1
    ensures forall k :: 0 <= k < |r| ==> r[k] == row || r[k] in rows
    ensures NewestFirst(r)
    ensures multiset(r) == multiset(rows) + multiset{row}
  {
    if rows == [] || row.timestamp >= rows[0].timestamp then [row] + rows
    else
      var rest := InsertByTime(row, rows[1..]);
      assert rows == [rows[0]] + rows[1..];
      forall k | 0 <= k < |rest| ensures rows[0].timestamp >= rest[k].timestamp {
        if rest[k] != row {
          var m :| 0 <= m < |rows[1..]| && rows[1..][m] == rest[k];
          assert rows[m + 1] == rest[k];
        }
      }
      [rows[0]] + rest
  }

  /** `ORDER BY timestamp DESC`; rows with equal timestamps keep insertion order here,
      where PostgreSQL leaves their order unspecified. */
  function SortNewestFirst(rows: seq<SignupRow>): (r: seq<SignupRow>)
    ensures NewestFirst(r)
    ensures multiset(r) == multiset(rows)
    ensures |r| == |rows|
  {
    if rows == [] then []
    else
      assert rows == [rows[0]] + rows[1..];
      InsertByTime(rows[0], SortNewestFirst(rows[1..]))
  }

  // ---------------------------------------------------------------- counts and growth

  /** `SELECT count() ... WHERE timestamp >= since`. */
  function CountSince(rows: seq<SignupRow>, since: int): (n: nat)
    ensures n <= |rows|
  {
    if rows == [] then 0
    else (if rows[0].timestamp >= since then 1 else 0) + CountSince(rows[1..], since)
  }

  /** The number of rows with `from <= timestamp < until`. */
  function CountBetween(rows: seq<SignupRow>, from: int, until: int): (n: nat)
    ensures n <= |rows|
  {
    if rows == [] then 0
    else (if from <= rows[0].timestamp < until then 1 else 0) + CountBetween(rows[1..], from, until)
  }

  /** A later cut-off never counts more rows. */
  lemma {:induction false} CountSinceAntitone(rows: seq<SignupRow>, a: int, b: int)
    requires a <= b
    ensures CountSince(rows, b) <= CountSince(rows, a)
  {
    if rows != [] { CountSinceAntitone(rows[1..], a, b); }
  }

  /** The rows since `a` are those in `[a, b)` together with those since `b`. */
  lemma {:induction false} CountSinceSplit(rows: seq<SignupRow>, a: int, b: int)
    requires a <= b
    ensures CountSince(rows, a) == CountBetween(rows, a, b) + CountSince(rows, b)
  {
    if rows != [] { CountSinceSplit(rows[1..], a, b); }
  }

  /** `Math.round(n / d)` computed exactly: the nearest integer, halves rounded up. */
  function RoundHalfUp(n: int, d: int): (r: int)
    requires d > 0
    ensures 2 * d * r - d <= 2 * n < 2 * d * r + d
  {
    var q := (2 * n + d) / (2 * d);
    assert 2 * n + d == 2 * d * q + (2 * n + d) % (2 * d);
    q
  }

  /** `lastWeek > 0 ? Math.round((thisWeek - lastWeek) / lastWeek * 100)
                    : thisWeek > 0 ? 100 : 0`. */
  function WeeklyGrowth(thisWeek: nat, lastWeek: int): (g: int)
    ensures lastWeek > 0 ==>
              2 * lastWeek * g - lastWeek <= 200 * (thisWeek - lastWeek) < 2 * lastWeek * g + lastWeek
    ensures lastWeek <= 0 ==> g == (if thisWeek > 0 then 100 else 0)
    ensures lastWeek >= 0 ==> g >= -100
    ensures thisWeek == lastWeek ==> g == 0
  {
    if lastWeek > 0 then
      var g := RoundHalfUp(100 * (thisWeek - lastWeek), lastWeek);
      GrowthBounds(thisWeek, lastWeek, g);
      g
    else if thisWeek > 0 then 100
    else 0
  }

  /** The rounded growth cannot fall below -100, and is 0 with no change. */
  lemma GrowthBounds(t: nat, l: int, g: int)
    requires l > 0
    requires 2 * l * g - l <= 200 * (t - l) < 2 * l * g + l
    ensures g >= -100
    ensures t == l ==> g == 0
  {
    assert l * (2 * g + 201) > 0 by {
      assert 2 * l * g + l > 200 * (t - l) >= -200 * l;
    }
    if t == l {
      assert l * (2 * g - 1) <= 0 < l * (2 * g + 1);
    }
  }

  /** The three figures `getWaitlistStats` returns. */
  datatype Stats = Stats(totalSignups: nat, todaySignups: nat, weeklyGrowth: int)

  function WeekAgo(today: int): int { today - 7 * DayMs }
  function TwoWeeksAgo(today: int): int { today - 14 * DayMs }

  /** `thisWeekSignups`: rows since a week before the start of today. */
  function ThisWeekSignups(rows: seq<SignupRow>, today: int): nat {
    CountSince(rows, WeekAgo(today))
  }

  /** `lastWeekSignups`: rows since two weeks ago, less those of this week. */
  function LastWeekSignups(rows: seq<SignupRow>, today: int): int {
    CountSince(rows, TwoWeeksAgo(today)) - ThisWeekSignups(rows, today)
  }

  /** `getWaitlistStats()`, with `today` the start of the current day in milliseconds. */
  function WaitlistStats(rows: seq<SignupRow>, today: int): (s: Stats)
    ensures s.totalSignups == |rows|
    ensures s.todaySignups == CountSince(rows, today) <= s.totalSignups
    ensures s.weeklyGrowth == WeeklyGrowth(ThisWeekSignups(rows, today), LastWeekSignups(rows, today))
    ensures s.weeklyGrowth >= -100
  {
    CountSinceAntitone(rows, TwoWeeksAgo(today), WeekAgo(today));
    Stats(|rows|, CountSince(rows, today),
          WeeklyGrowth(ThisWeekSignups(rows, today), LastWeekSignups(rows, today)))
  }

  /** The windows nest: today's rows are among this week's, which are among all rows;
      last week's figure is the number of rows of the week before, so it is never negative. */
  lemma {:induction false} StatsWindows(rows: seq<SignupRow>, today: int)
    ensures WaitlistStats(rows, today).todaySignups <= ThisWeekSignups(rows, today) <= |rows|
    ensures LastWeekSignups(rows, today) == CountBetween(rows, TwoWeeksAgo(today), WeekAgo(today))
    ensures LastWeekSignups(rows, today) >= 0
  {
    CountSinceAntitone(rows, WeekAgo(today), today);
    CountSinceSplit(rows, TwoWeeksAgo(today), WeekAgo(today));
  }

  /** An empty table has no signups and no growth. */
  lemma StatsOfEmptyTable(today: int)
    ensures WaitlistStats([], today) == Stats(0, 0, 0)
  {
  }

  /** The worked figures: 10 after 5 is +100%, 5 after 0 is 100%, 0 after 0 is 0%. */
  lemma GrowthExamples()
    ensures WeeklyGrowth(10, 5) == 100
    ensures WeeklyGrowth(5, 0) == 100
    ensures WeeklyGrowth(0, 0) == 0
  {
  }

  // ---------------------------------------------------------------- the store

  class DatabaseStorage {
    var users: seq<UserRow>
    var nextUserId: nat
    var signups: seq<SignupRow>
    var nextSignupId: nat

    /** The table invariants: unique keys, and every id positive, below the serial's
        next value and increasing in insertion order. */
    ghost predicate Valid()
      reads this
    {
      && nextUserId >= 1 && nextSignupId >= 1
      && UniqueUsernames(users)
      && (forall i :: 0 <= i < |users| ==> 1 <= users[i].id < nextUserId)
      && (forall i, j :: 0 <= i < j < |users| ==> users[i].id < users[j].id)
      && UniqueEmails(signups)
      && (forall i :: 0 <= i < |signups| ==> 1 <= signups[i].id < nextSignupId)
      && (forall i, j :: 0 <= i < j < |signups| ==> signups[i].id < signups[j].id)
    }

    constructor ()
      ensures Valid()
      ensures users == [] && signups == [] && nextUserId == 1 && nextSignupId == 1
    {
      users, signups := [], [];
      nextUserId, nextSignupId := 1, 1;
    }

    /** `getUser(id)`. */
    function GetUser(id: nat): (r: Option<UserRow>)
      reads this
      ensures r.Some? ==> r.value in users && r.value.id == id
      ensures r.None? <==> forall i :: 0 <= i < |users| ==> users[i].id != id
    {
      FindFirst(users, (u: UserRow) => u.id == id)
    }

    /** `getUserByUsername(username)`: exact comparison. */
    function GetUserByUsername(username: string): (r: Option<UserRow>)
      reads this
      ensures r.Some? ==> r.value in users && r.value.username == username
      ensures r.None? <==> forall i :: 0 <= i < |users| ==> users[i].username != username
    {
      FindFirst(users, (u: UserRow) => u.username == username)
    }

    /** `createUser(insertUser)`: inserts with `isActive` true and `createdAt` now, or fails
        on the unique username; a failed insert still consumes a serial value. */
    method CreateUser(input: InsertUser, now: int) returns (r: Result<UserRow, DbError>)
      requires Valid()
      modifies this
      ensures Valid()
      ensures signups == old(signups) && nextSignupId == old(nextSignupId)
      ensures nextUserId == old(nextUserId) + 1
      ensures (exists i :: 0 <= i < |old(users)| && old(users)[i].username == input.username) ==>
                r == Failure(UniqueViolation(UsernameConstraint)) && users == old(users)
      ensures (forall i :: 0 <= i < |old(users)| ==> old(users)[i].username != input.username) ==>
                && r == Success(UserRow(old(nextUserId), input.username, input.password, now, None, true))
                && users == old(users) + [r.value]
    {
      var id := nextUserId;
      nextUserId := nextUserId + 1;
      if GetUserByUsername(input.username).Some? {
        r := Failure(UniqueViolation(UsernameConstraint));
      } else {
        var row := UserRow(id, input.username, input.password, now, None, true);
        users := users + [row];
        r := Success(row);
      }
    }

    /** `getWaitlistSignupByEmail(email)`: the row whose e-mail is exactly `email`
        (case and white space count), or nothing. */
    function GetWaitlistSignupByEmail(email: string): (r: Option<SignupRow>)
      reads this
      ensures r.Some? ==> r.value in signups && r.value.email == email
      ensures r.None? <==> forall i :: 0 <= i < |signups| ==> signups[i].email != email
      ensures UniqueEmails(signups) ==>
                forall i :: 0 <= i < |signups| && signups[i].email == email ==> r == Some(signups[i])
    {
      FindFirst(signups, (s: SignupRow) => s.email == email)
    }

    /** `createWaitlistSignup(input)`: appends the new row with the column defaults and a
        fresh id, or fails on the unique e-mail leaving the rows as they were; PostgreSQL
        draws the serial value before the constraint check, so both advance the counter. */
    method CreateWaitlistSignup(input: SignupInput, now: int) returns (r: Result<SignupRow, DbError>)
      requires Valid()
      modifies this
      ensures Valid()
      ensures users == old(users) && nextUserId == old(nextUserId)
      ensures nextSignupId == old(nextSignupId) + 1
      ensures (exists i :: 0 <= i < |old(signups)| && old(signups)[i].email == input.email) ==>
                r == Failure(UniqueViolation(SignupEmailConstraint)) && signups == old(signups)
      ensures (forall i :: 0 <= i < |old(signups)| ==> old(signups)[i].email != input.email) ==>
                && r == Success(NewSignupRow(old(nextSignupId), input, now))
                && signups == old(signups) + [r.value]
      ensures r.Success? ==> forall i :: 0 <= i < |old(signups)| ==> old(signups)[i].id < r.value.id
    {
      var id := nextSignupId;
      nextSignupId := nextSignupId + 1;
      if GetWaitlistSignupByEmail(input.email).Some? {
        r := Failure(UniqueViolation(SignupEmailConstraint));
      } else {
        var row := NewSignupRow(id, input, now);
        signups := signups + [row];
        r := Success(row);
      }
    }

    /** `getAllWaitlistSignups()`: every row exactly once, newest first. */
    function GetAllWaitlistSignups(): (r: seq<SignupRow>)
      reads this
      ensures multiset(r) == multiset(signups)
      ensures NewestFirst(r)
    {
      SortNewestFirst(signups)
    }

    /** `getWaitlistStats()` on the current rows. */
    function GetWaitlistStats(today: int): (s: Stats)
      reads this
      ensures s.totalSignups == |signups|
      ensures s.todaySignups == CountSince(signups, today)
      ensures s.todaySignups <= ThisWeekSignups(signups, today) <= s.totalSignups
      ensures s.weeklyGrowth == WeeklyGrowth(ThisWeekSignups(signups, today), LastWeekSignups(signups, today))
    {
      StatsWindows(signups, today);
      WaitlistStats(signups, today)
    }
  }
}
