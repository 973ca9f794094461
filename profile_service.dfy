/**
 * Username and profile provisioning (lib/supabase/services/profile-service.ts). The username
 * generator, the `profiles` lookups and insert, and the clock are inputs: the candidates the
 * generator yields in turn, the outcome of each lookup, the insert's outcome and `Date.now()`.
 */
module ProfileService {
  import opened Wrappers
  import opened Relational
  import opened Text

  /** The `.single()` lookup of a username: a row, an error with its code, or a thrown exception. */
  datatype Probe = Found | QueryError(code: string) | Exception

  /** PostgREST's "no rows (or several) for `.single()`". */
  const NoSingleRow: string := "PGRST116"

  /** `isUsernameAvailable`: available only when the lookup fails with PGRST116; any other outcome says taken. */
  predicate IsUsernameAvailable(p: Probe)
    ensures IsUsernameAvailable(p) ==> p != Found && p != Exception
  {
    p.QueryError? && p.code == NoSingleRow
  }

  /** The lookup `.select('username').eq('username', u).single()` against the usernames in use. */
  function ProbeUsernames(usernames: seq<string>, u: string): (r: Probe)
    ensures r != Exception && (r.QueryError? ==> r.code == NoSingleRow)
  {
    if |Filter(usernames, (x: string) => x == u)| == 1 then Found else QueryError(NoSingleRow)
  }

  /** With usernames unique, a username is reported available exactly when nobody uses it. */
  lemma AvailableIffUnused(usernames: seq<string>, u: string)
    requires forall i, j :: 0 <= i < j < |usernames| ==> usernames[i] != usernames[j]
    ensures IsUsernameAvailable(ProbeUsernames(usernames, u)) <==> u !in usernames
  {
    var p := (x: string) => x == u;
    if u in usernames {
      var k :| 0 <= k < |usernames| && usernames[k] == u;
      FilterAtMostOne(usernames, p);
      assert usernames[k] in Filter(usernames, p);
    } else {
      FilterKeepsNone(usernames, p);
    }
  }

  /** The first of the first `n` candidates the check accepts, if any. */
  function FirstAvailable(candidates: seq<string>, probe: string -> Probe, n: nat): (r: Option<nat>)
    requires n <= |candidates|
    ensures r.Some? ==> r.value < n && IsUsernameAvailable(probe(candidates[r.value]))
    ensures r.Some? ==> forall j :: 0 <= j < r.value ==> !IsUsernameAvailable(probe(candidates[j]))
    ensures r.None? <==> forall j :: 0 <= j < n ==> !IsUsernameAvailable(probe(candidates[j]))
  {
    if n == 0 then None
    else
      var earlier := FirstAvailable(candidates, probe, n - 1);
      if earlier.Some? then earlier
      else if IsUsernameAvailable(probe(candidates[n - 1])) then Some(n - 1)
      else None
  }

  /** `Date.now().toString().slice(-4)`. */
  function ClockSuffix(clockMillis: nat): string
  {
    LastFour(NatToString(clockMillis))
  }

  /** The number of availability checks `maxAttempts` allows. */
  function Budget(maxAttempts: int): nat
  {
    if maxAttempts > 0 then maxAttempts else 0
  }

  /**
   * `generateUniqueUsername`: the first candidate among the first `maxAttempts` found available;
   * when none is, the candidate generated after the last failed check (never checked itself)
   * with the last four digits of the clock appended.
   */
  function UniqueUsername(candidates: seq<string>, probe: string -> Probe, clockMillis: nat, maxAttempts: int): string
    requires Budget(maxAttempts) < |candidates|
  {
    match FirstAvailable(candidates, probe, Budget(maxAttempts))
    case Some(k) => candidates[k]
    case None => candidates[Budget(maxAttempts)] + ClockSuffix(clockMillis)
  }

  /**
   * The `while (attempts < maxAttempts)` loop, with the `i`-th call of the generator yielding
   * `candidates[i]`. `checks` counts the availability checks made.
   */
  method GenerateUniqueUsername(candidates: seq<string>, probe: string -> Probe, clockMillis: nat, maxAttempts: int)
    returns (username: string, ghost checks: nat)
    requires Budget(maxAttempts) < |candidates|
    ensures username == UniqueUsername(candidates, probe, clockMillis, maxAttempts)
    ensures checks <= Budget(maxAttempts)
    ensures FirstAvailable(candidates, probe, Budget(maxAttempts)).Some? ==>
      checks == FirstAvailable(candidates, probe, Budget(maxAttempts)).value + 1
    ensures FirstAvailable(candidates, probe, Budget(maxAttempts)).None? ==> checks == Budget(maxAttempts)
  {
    username := candidates[0];
    var attempts := 0;
    checks := 0;
    while attempts < maxAttempts
      invariant 0 <= attempts <= Budget(maxAttempts)
      invariant username == candidates[attempts]
      invariant checks == attempts
      invariant FirstAvailable(candidates, probe, attempts).None?
    {
      checks := checks + 1;
      if IsUsernameAvailable(probe(username)) {
        FirstAvailablePrefix(candidates, probe, attempts, Budget(maxAttempts));
        return;
      }
      username := candidates[attempts + 1];
      attempts := attempts + 1;
    }
    var timestamp := ClockSuffix(clockMillis);
    username := username + timestamp;
  }

  /** Once the first `k` candidates are all taken and the next is free, it is the first available of any longer prefix. */
  lemma {:induction false} FirstAvailablePrefix(candidates: seq<string>, probe: string -> Probe, k: nat, n: nat)
    requires k < n <= |candidates|
    requires FirstAvailable(candidates, probe, k).None?
    requires IsUsernameAvailable(probe(candidates[k]))
    ensures FirstAvailable(candidates, probe, n) == Some(k)
    decreases n
  {
    if n > k + 1 {
      FirstAvailablePrefix(candidates, probe, k, n - 1);
    }
  }

  /**
   * What the generated username is: an available candidate with every earlier one taken, or the
   * unchecked next candidate followed by the last four clock digits (exactly four once the clock
   * reads 1000 ms or more), after every allowed check failed.
   */
  lemma UniqueUsernameCases(candidates: seq<string>, probe: string -> Probe, clockMillis: nat, maxAttempts: int)
    requires Budget(maxAttempts) < |candidates|
    ensures var u := UniqueUsername(candidates, probe, clockMillis, maxAttempts);
      || (exists k :: 0 <= k < Budget(maxAttempts) && u == candidates[k]
           && IsUsernameAvailable(probe(candidates[k]))
           && forall j :: 0 <= j < k ==> !IsUsernameAvailable(probe(candidates[j])))
      || (&& (forall j :: 0 <= j < Budget(maxAttempts) ==> !IsUsernameAvailable(probe(candidates[j])))
          && u == candidates[Budget(maxAttempts)] + ClockSuffix(clockMillis))
    ensures clockMillis >= 1000 ==>
      var s := ClockSuffix(clockMillis);
      |s| == 4 && forall i :: 0 <= i < 4 ==> '0' <= s[i] <= '9'
  {
    NatToStringValue(clockMillis);
  }

  /** The number of attempts `createProfileForUser` leaves to the default `maxAttempts = 5`. */
  const DefaultMaxAttempts: int := 5

  datatype ProfileInsert = ProfileInsert(
    user_id: string,
    username: string,
    display_name: string,
    bio: string,
    avatar_url: Option<string>)

  /** A row of `profiles` as the insert's `.select().single()` returns it. */
  datatype Profile = Profile(
    id: string,
    user_id: string,
    username: string,
    display_name: string,
    bio: string,
    avatar_url: Option<string>,
    created_at: int,
    updated_at: int)

  /** The outcome of `.insert(profileData).select().single()`: the row, an error, or a thrown exception. */
  datatype InsertOutcome = Inserted(row: Profile) | InsertError(code: string) | InsertThrew

  /** `email.split('@')[0]`. */
  function DisplayName(email: string): string
  {
    BeforeFirst(email, '@')
  }

  /** The display name is the e-mail up to its first `@`, or the whole e-mail when it has none. */
  lemma DisplayNameIsPrefix(email: string)
    ensures var d := DisplayName(email);
      && d == email[..|d|] && '@' !in d
      && ('@' in email ==> |d| < |email| && email[|d|] == '@')
      && ('@' !in email ==> d == email)
  {
  }

  function ProfileData(userId: string, username: string, email: string): ProfileInsert
  {
    ProfileInsert(userId, username, DisplayName(email), "", None)
  }

  /**
   * `createProfileForUser`: generates the username, inserts the profile and returns the inserted
   * row; an insert error or an exception yields no profile.
   */
  method CreateProfileForUser(userId: string, email: string, candidates: seq<string>, probe: string -> Probe,
                              clockMillis: nat, insert: ProfileInsert -> InsertOutcome) returns (r: Option<Profile>)
    requires Budget(DefaultMaxAttempts) < |candidates|
    ensures var data := ProfileData(userId, UniqueUsername(candidates, probe, clockMillis, DefaultMaxAttempts), email);
      && data.user_id == userId && data.bio == "" && data.avatar_url.None?
      && data.display_name == BeforeFirst(email, '@')
      && (r.Some? <==> insert(data).Inserted?)
      && (r.Some? ==> r.value == insert(data).row)
  {
    var username, _ := GenerateUniqueUsername(candidates, probe, clockMillis, DefaultMaxAttempts);
    var displayName := DisplayName(email);
    var profileData := ProfileInsert(userId, username, displayName, "", None);
    var outcome := insert(profileData);
    if !outcome.Inserted? {
      return None;
    }
    r := Some(outcome.row);
  }
}
