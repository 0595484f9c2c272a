/** authd/authd.py: a login gate in front of the roster operations, and the
    roster itself (a list of people with vote counts).

    `input()` is replaced by parameters: the credentials the user would type
    and the name they would enter. Printed messages are left out; what they
    report (whether the action ran, whether the name was found) is returned. */
module Authd {
  import opened Outcomes

  /** The only accepted credentials (`USERNAME`, `PASSWORD`). */
  const Username: string := "admin"
  const Password: string := "pw"

  /** One roster entry, `{"name": ..., "votes": ...}`. */
  datatype Person = Person(name: string, votes: int)

  /** ASCII lower-casing; stands in for Python's `str.lower()`. */
  function LowerChar(c: char): char {
    if 'A' <= c <= 'Z' then (c as int + 32) as char else c
  }

  function Lower(s: string): string {
    seq(|s|, i requires 0 <= i < |s| => LowerChar(s[i]))
  }

  /** `p["name"].lower() == name.lower()`. */
  predicate Matches(p: Person, name: string) {
    Lower(p.name) == Lower(name)
  }

  // ----- The gate (`authd.wrapper`) -----

  /** Whether the gate lets the protected function run: either the admin is
      already authenticated (no prompt), or both typed credentials match. */
  predicate Admits(authd: set<string>, user: string, password: string) {
    Username in authd || (user == Username && password == Password)
  }

  /** The authenticated set after the gate has run. */
  function AfterGate(authd: set<string>, user: string, password: string): (r: set<string>)
    ensures authd <= r
    ensures r - authd <= {Username}
    ensures Username in r <==> Admits(authd, user, password)
  {
    if Username !in authd && user == Username && password == Password then authd + {user}
    else authd
  }

  /** Once the gate has admitted someone, every later call is admitted,
      whatever is typed then. */
  lemma AuthenticationPersists(authd: set<string>, user: string, password: string, user': string, password': string)
    requires Admits(authd, user, password)
    ensures Admits(AfterGate(authd, user, password), user', password')
    ensures AfterGate(AfterGate(authd, user, password), user', password') == AfterGate(authd, user, password)
  {
  }

  // ----- Roster ordering (`view_roster`) -----

  predicate NonIncreasing(s: seq<Person>) {
    forall i, j :: 0 <= i < j < |s| ==> s[i].votes >= s[j].votes
  }

  /** A head with at least as many votes as the first entry keeps a list
      non-increasing. */
  lemma NonIncreasingCons(q: Person, t: seq<Person>)
    ensures NonIncreasing(t) && (|t| > 0 ==> q.votes >= t[0].votes) ==> NonIncreasing([q] + t)
  {
  }

  /** Inserts `p` in front of the first entry with no more votes than `p`,
      so that `p` stays ahead of entries it ties with. */
  function InsertByVotes(p: Person, s: seq<Person>): (r: seq<Person>)
    ensures |r| == |s| + 1
    ensures multiset(r) == multiset(s) + multiset{p}
    ensures r[0] == p || (|s| > 0 && r[0] == s[0])
    ensures NonIncreasing(s) ==> NonIncreasing(r)
  {
    if |s| == 0 then [p]
    else if s[0].votes > p.votes then
      assert s == [s[0]] + s[1..];
      var rest := InsertByVotes(p, s[1..]);
      NonIncreasingCons(s[0], rest);
      [s[0]] + rest
    else [p] + s
  }

  /** `sorted(ROSTER, key=lambda p: p["votes"], reverse=True)`: a stable
      sort by votes, highest first. */
  function ByVotes(s: seq<Person>): (r: seq<Person>)
    ensures |r| == |s|
    ensures multiset(r) == multiset(s)
    ensures NonIncreasing(r)
  {
    if |s| == 0 then []
    else
      assert s == [s[0]] + s[1..];
      InsertByVotes(s[0], ByVotes(s[1..]))
  }

  /** The entries with exactly `v` votes, in their order in `s`. */
  function WithVotes(s: seq<Person>, v: int): seq<Person> {
    if |s| == 0 then []
    else (if s[0].votes == v then [s[0]] else []) + WithVotes(s[1..], v)
  }

  /** Filtering a sequence that starts with `x`. */
  lemma WithVotesCons(x: Person, s: seq<Person>, v: int)
    ensures WithVotes([x] + s, v) == (if x.votes == v then [x] else []) + WithVotes(s, v)
  {
    assert ([x] + s)[1..] == s;
  }

  lemma {:induction false} InsertByVotesStable(p: Person, s: seq<Person>, v: int)
    ensures WithVotes(InsertByVotes(p, s), v) == (if p.votes == v then [p] else []) + WithVotes(s, v)
  {
    var fp := if p.votes == v then [p] else [];
    if |s| > 0 && s[0].votes > p.votes {
      var f0 := if s[0].votes == v then [s[0]] else [];
      var rest := InsertByVotes(p, s[1..]);
      calc {
        WithVotes(InsertByVotes(p, s), v);
        WithVotes([s[0]] + rest, v);
        { WithVotesCons(s[0], rest, v); }
        f0 + WithVotes(rest, v);
        { InsertByVotesStable(p, s[1..], v); }
        f0 + (fp + WithVotes(s[1..], v));
        // s[0] has more votes than p, so at most one of f0 and fp is non-empty.
        { if f0 == [] {
            assert f0 + (fp + WithVotes(s[1..], v)) == fp + WithVotes(s[1..], v);
            assert f0 + WithVotes(s[1..], v) == WithVotes(s[1..], v);
          } else {
            assert fp == [];
            assert fp + (f0 + WithVotes(s[1..], v)) == f0 + WithVotes(s[1..], v);
            assert fp + WithVotes(s[1..], v) == WithVotes(s[1..], v);
          } }
        fp + (f0 + WithVotes(s[1..], v));
        { WithVotesCons(s[0], s[1..], v); assert [s[0]] + s[1..] == s; }
        fp + WithVotes(s, v);
      }
    } else {
      assert InsertByVotes(p, s) == [p] + s;
      WithVotesCons(p, s, v);
    }
  }

  /** Python's sort is stable, also with `reverse=True`: entries that tie on
      votes come out in their roster order. */
  lemma {:induction false} ByVotesStable(s: seq<Person>, v: int)
    ensures WithVotes(ByVotes(s), v) == WithVotes(s, v)
  {
    if |s| > 0 {
      ByVotesStable(s[1..], v);
      InsertByVotesStable(s[0], ByVotes(s[1..]), v);
    }
  }

  // ----- Upvoting -----

  /** The index of the first entry whose lower-cased name equals the
      lower-cased `name`, if there is one. */
  function FirstMatch(roster: seq<Person>, name: string): (r: Option<nat>)
    ensures r.Some? ==> r.value < |roster| && Matches(roster[r.value], name)
    ensures r.Some? ==> forall j :: 0 <= j < r.value ==> !Matches(roster[j], name)
    ensures r.None? <==> forall j :: 0 <= j < |roster| ==> !Matches(roster[j], name)
  {
    if |roster| == 0 then None
    else if Matches(roster[0], name) then Some(0)
    else match FirstMatch(roster[1..], name)
      case None => None
      case Some(i) => Some(i + 1)
  }

  /** The roster after `upvote` with `name`: the first match has exactly one
      more vote, every other entry and the length are unchanged, and an
      unmatched name changes nothing. */
  function Upvoted(roster: seq<Person>, name: string): (r: seq<Person>)
    ensures |r| == |roster|
    ensures FirstMatch(roster, name).None? ==> r == roster
    ensures forall j :: 0 <= j < |roster| && FirstMatch(roster, name) != Some(j) ==> r[j] == roster[j]
    ensures forall j :: 0 <= j < |roster| && FirstMatch(roster, name) == Some(j) ==>
              r[j].name == roster[j].name && r[j].votes == roster[j].votes + 1
  {
    match FirstMatch(roster, name)
    case None => roster
    case Some(i) => roster[i := roster[i].(votes := roster[i].votes + 1)]
  }

  /** The program state: `ROSTER` and `AUTHD_USER`. */
  class App {
    var roster: seq<Person>
    var authd: set<string>

    /** The state at start-up: the three preset entries, nobody logged in. */
    constructor ()
      ensures roster == [Person("Alice", 12), Person("Tyler", 9), Person("Andrew", 10)]
      ensures authd == {}
    {
      roster := [Person("Alice", 12), Person("Tyler", 9), Person("Andrew", 10)];
      authd := {};
    }

    /** The check `authd.wrapper` makes before running the protected
        function; `user` and `password` are what would be typed at the
        prompts, and are ignored when the admin is already logged in. */
    method Gate(user: string, password: string) returns (admitted: bool)
      modifies this`authd
      ensures admitted == Admits(old(authd), user, password)
      ensures authd == AfterGate(old(authd), user, password)
      ensures Username in old(authd) ==> admitted && authd == old(authd)
      ensures !admitted ==> authd == old(authd)
    {
      if Username !in authd {
        if password != Password || user != Username {
          return false;
        }
        authd := authd + {user};
      }
      admitted := true;
    }

    /** The body of `upvote` once the gate has let it through: scan the
        roster and give the first matching entry one more vote. */
    method VoteFor(name: string) returns (found: bool)
      modifies this`roster
      ensures found == FirstMatch(old(roster), name).Some?
      ensures roster == Upvoted(old(roster), name)
    {
      var key := Lower(name);
      var i := 0;
      while i < |roster|
        invariant 0 <= i <= |roster|
        invariant roster == old(roster)
        invariant forall j :: 0 <= j < i ==> !Matches(roster[j], name)
      {
        if Lower(roster[i].name) == key {
          roster := roster[i := roster[i].(votes := roster[i].votes + 1)];
          return true;
        }
        i := i + 1;
      }
      found := false;
    }

    /** `upvote` behind the gate. `ran` says whether the gate let it run. */
    method Upvote(user: string, password: string, name: string) returns (ran: bool, found: bool)
      modifies this
      ensures ran == Admits(old(authd), user, password)
      ensures authd == AfterGate(old(authd), user, password)
      ensures roster == if ran then Upvoted(old(roster), name) else old(roster)
      ensures found <==> ran && FirstMatch(old(roster), name).Some?
    {
      ran := Gate(user, password);
      found := false;
      if ran {
        found := VoteFor(name);
      }
    }

    /** `add_to_roster` behind the gate: append the name with no votes. */
    method AddToRoster(user: string, password: string, name: string) returns (ran: bool)
      modifies this
      ensures ran == Admits(old(authd), user, password)
      ensures authd == AfterGate(old(authd), user, password)
      ensures roster == if ran then old(roster) + [Person(name, 0)] else old(roster)
    {
      ran := Gate(user, password);
      if ran {
        roster := roster + [Person(name, 0)];
      }
    }

    /** The order in which `view_roster` prints the entries; the roster
        itself is not changed. */
    method ViewRoster() returns (ordered: seq<Person>)
      ensures ordered == ByVotes(roster)
      ensures multiset(ordered) == multiset(roster)
      ensures NonIncreasing(ordered)
    {
      ordered := ByVotes(roster);
    }
  }
}
