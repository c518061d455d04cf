/** The username of a new Google user: the base name, or the base name with the least free number. */
module Usernames {
  import opened Options
  import opened Ledger
  import opened Users

  /** A digit in decimal. */
  function Digit(d: nat): char
    requires d < 10
  {
    '0' + d as char
  }

  /** %d. */
  function Decimal(n: nat): (text: string)
    ensures text != ""
  {
    if n < 10 then [Digit(n)] else Decimal(n / 10) + [Digit(n % 10)]
  }

  /** The number that a decimal text stands for; None for any other text. */
  function Parse(text: string): Option<nat>
    decreases |text|
  {
    if text == [] then None
    else
      var n := |text| - 1;
      var last := text[n] as int - 48;
      if !(0 <= last <= 9) then None
      else if n == 0 then Some(last)
      else if Parse(text[..n]).None? then None
      else Some(10 * Parse(text[..n]).value + last)
  }

  /** A number is written in its decimal digits, the ASCII codes 48 to 57, without leading zeros. */
  lemma {:induction false} DecimalReadsBack(n: nat)
    ensures Parse(Decimal(n)) == Some(n)
    ensures Decimal(n)[0] as int == 48 <==> n == 0
  {
    if n < 10 {
    } else {
      DecimalReadsBack(n / 10);
      var text := Decimal(n);
      assert text[..|text| - 1] == Decimal(n / 10) && text[|text| - 1] == Digit(n % 10);
    }
  }

  /** Different numbers are written differently. */
  lemma {:induction false} DecimalInjective(m: nat, n: nat)
    requires Decimal(m) == Decimal(n)
    ensures m == n
  {
    var a, b := Decimal(m), Decimal(n);
    assert a[|a| - 1] == Digit(m % 10) && b[|b| - 1] == Digit(n % 10);
    if m >= 10 && n >= 10 {
      assert a[..|a| - 1] == Decimal(m / 10) && b[..|b| - 1] == Decimal(n / 10);
      DecimalInjective(m / 10, n / 10);
    }
  }

  /** The probes after the base name, by suffix. */
  function Candidate(base: string, suffix: nat): string {
    base + Decimal(suffix)
  }

  lemma CandidatesDiffer(base: string, m: nat, n: nat)
    requires m != n
    ensures Candidate(base, m) != Candidate(base, n)
  {
    if Candidate(base, m) == Candidate(base, n) {
      assert Candidate(base, m)[|base|..] == Decimal(m) && Candidate(base, n)[|base|..] == Decimal(n);
      DecimalInjective(m, n);
    }
  }

  function Candidates(base: string, count: nat): set<string> {
    set i | 1 <= i <= count :: Candidate(base, i)
  }

  /** As many different names as suffixes. */
  lemma {:induction false} CandidateCount(base: string, count: nat)
    ensures |Candidates(base, count)| == count
  {
    if count == 0 {
    } else {
      CandidateCount(base, count - 1);
      assert Candidate(base, count) !in Candidates(base, count - 1) by {
        forall i | 1 <= i < count ensures Candidate(base, i) != Candidate(base, count) {
          CandidatesDiffer(base, i, count);
        }
      }
      assert Candidates(base, count) == Candidates(base, count - 1) + {Candidate(base, count)};
    }
  }

  lemma SubsetCount<T>(a: set<T>, b: set<T>)
    requires a <= b
    ensures |a| <= |b|
  {
    assert b == a + (b - a);
  }

  /** Pigeonhole: no more suffixes are taken in a row than there are taken names beside the base name. */
  lemma TakenRun(taken: set<string>, base: string, count: nat)
    requires base in taken && forall i: nat | 1 <= i <= count :: Candidate(base, i) in taken
    ensures count < |taken|
  {
    CandidateCount(base, count);
    forall i | 1 <= i <= count ensures Candidate(base, i) != base {
      assert |Candidate(base, i)| > |base|;
    }
    SubsetCount(Candidates(base, count) + {base}, taken);
  }

  /** The base name if it is free, otherwise the base name and the least free suffix from 1. */
  ghost predicate Chosen(taken: set<string>, base: string, username: string) {
    && username !in taken
    && (base !in taken ==> username == base)
    && (base in taken ==> exists k: nat :: LeastFree(taken, base, k) && username == Candidate(base, k))
  }

  predicate LeastFree(taken: set<string>, base: string, k: nat) {
    k >= 1 && Candidate(base, k) !in taken && forall i: nat | 1 <= i < k :: Candidate(base, i) in taken
  }

  /** The choice is determined by the taken names. */
  lemma ChosenIsUnique(taken: set<string>, base: string, a: string, b: string)
    requires Chosen(taken, base, a) && Chosen(taken, base, b)
    ensures a == b
  {
    if base in taken {
      var i: nat :| LeastFree(taken, base, i) && a == Candidate(base, i);
      var k: nat :| LeastFree(taken, base, k) && b == Candidate(base, k);
      assert !(i < k) && !(k < i);
    }
  }

  /** A name chosen for a taken base is the base and a positive number, the numbers below it being taken. */
  lemma ChosenReads(taken: set<string>, base: string, username: string) returns (k: nat)
    requires Chosen(taken, base, username) && base in taken
    ensures base <= username && Parse(username[|base|..]) == Some(k) && username == base + Decimal(k)
    ensures k >= 1 && username !in taken && forall i: nat | 1 <= i < k :: base + Decimal(i) in taken
  {
    k :| LeastFree(taken, base, k) && username == Candidate(base, k);
    assert username[|base|..] == Decimal(k);
    DecimalReadsBack(k);
    forall i: nat | 1 <= i < k ensures base + Decimal(i) in taken {
      assert Candidate(base, i) in taken;
    }
  }

  class AuthUsecase {
    const userRepo: UserRepository

    constructor (userRepo: UserRepository)
      ensures this.userRepo == userRepo
    {
      this.userRepo := userRepo;
    }

    /**
      The collision loop of LoginWithGoogle. It ends for every set of taken
      names, after at most one probe more than there are names.
     */
    method FreeUsername(usernameBase: string) returns (username: string)
      modifies userRepo`checks
      ensures userRepo.checks - old(userRepo.checks) <= |userRepo.Usernames()| + 1
      ensures Chosen(userRepo.Usernames(), usernameBase, username)
    {
      ghost var taken := userRepo.Usernames();
      username := usernameBase;
      var exist := userRepo.CheckUsernameExists(username);
      var suffix := 1;
      while exist
        invariant suffix >= 1 && userRepo.checks == old(userRepo.checks) + suffix <= old(userRepo.checks) + |taken| + 1
        invariant exist == (username in taken)
        invariant username == if suffix == 1 then usernameBase else Candidate(usernameBase, suffix - 1)
        invariant suffix > 1 ==> usernameBase in taken
        invariant forall i: nat | 1 <= i < suffix - 1 :: Candidate(usernameBase, i) in taken
        decreases |taken| + 1 - suffix
      {
        TakenRun(taken, usernameBase, suffix - 1);
        username := Candidate(usernameBase, suffix);
        exist := userRepo.CheckUsernameExists(username);
        suffix := suffix + 1;
      }
      assert suffix > 1 ==> LeastFree(taken, usernameBase, suffix - 1);
    }

    /** A new user: refused only for an e-mail, Google id or generated id that is taken, never for the name. */
    method RegisterGoogleUser(user: User, wallet: Wallet, usernameBase: string, email: string, googleId: string)
      returns (username: string, err: Option<Error>)
      requires userRepo.Valid()
      modifies userRepo, userRepo.txRepo
      ensures userRepo.Valid() && Chosen(old(userRepo.Usernames()), usernameBase, username)
      ensures
        var others := old(userRepo.accounts);
        err.Some? <==>
          || user in others || wallet in old(userRepo.wallets).Values
          || (exists u :: u in others && (others[u].email == email || others[u].googleId == Some(googleId)))
          || Atomic(OpenWallet(wallet), old(userRepo.txRepo.Tables())).RolledBack?
      ensures err.None? ==>
        && userRepo.accounts == old(userRepo.accounts)[user := Account(username, email, Some(googleId))]
        && userRepo.wallets == old(userRepo.wallets)[user := wallet]
    {
      username := FreeUsername(usernameBase);
      ghost var others := userRepo.accounts;
      assert forall u | u in others :: others[u].username in userRepo.Usernames();
      err := userRepo.CreateUserWithWallet(user, Account(username, email, Some(googleId)), wallet);
    }
  }
}
