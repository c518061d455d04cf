/** Users and their wallets: one wallet each, no two users alike, and the default balances. */
module Users {
  import opened Options
  import opened Ledger
  import opened Repository

  type User = nat

  /** The columns of a user that carry a unique index. */
  datatype Account = Account(username: string, email: string, googleId: Option<string>)

  predicate Clashes(a: Account, b: Account) {
    a.username == b.username || a.email == b.email || (a.googleId.Some? && a.googleId == b.googleId)
  }

  /** No wallet belongs to two users. */
  ghost predicate OneUserEach(wallets: map<User, Wallet>) {
    forall u, v | u in wallets && v in wallets && wallets[u] == wallets[v] :: u == v
  }

  ghost predicate NoneAlike(accounts: map<User, Account>) {
    forall u, v | u in accounts && v in accounts && Clashes(accounts[u], accounts[v]) :: u == v
  }

  predicate ClashesWithOne(accounts: map<User, Account>, account: Account) {
    exists u :: u in accounts && Clashes(accounts[u], account)
  }

  class UserRepository {
    const txRepo: TransactionRepository
    /** The user rows, and the wallet rows by their unique user_id. */
    var accounts: map<User, Account>
    var wallets: map<User, Wallet>
    /** How often a name has been looked up. */
    var checks: nat

    ghost predicate Valid()
      reads this
    {
      accounts.Keys == wallets.Keys && OneUserEach(wallets) && NoneAlike(accounts)
    }

    function Usernames(): set<string>
      reads this
    {
      set u | u in accounts :: accounts[u].username
    }

    constructor (txRepo: TransactionRepository)
      ensures this.txRepo == txRepo && Valid() && accounts == map[] && wallets == map[] && checks == 0
    {
      this.txRepo, accounts, wallets, checks := txRepo, map[], map[], 0;
    }

    method GetWalletByUserID(user: User) returns (wallet: Option<Wallet>)
      ensures wallet == if user in wallets then Some(wallets[user]) else None
    {
      return if user in wallets then Some(wallets[user]) else None;
    }

    method CheckUsernameExists(username: string) returns (found: bool)
      modifies this`checks
      ensures found == (username in Usernames()) && checks == old(checks) + 1
    {
      checks := checks + 1;
      return username in Usernames();
    }

    /**
      User, wallet and default balances, or none of them: refused exactly when
      an id or a unique column is taken. Afterwards users still differ and no
      wallet is shared.
     */
    method CreateUserWithWallet(user: User, account: Account, wallet: Wallet) returns (err: Option<Error>)
      requires Valid()
      modifies this`accounts, this`wallets, txRepo
      ensures Valid()
      ensures
        var taken := user in old(accounts) || ClashesWithOne(old(accounts), account) || wallet in old(wallets).Values;
        var outcome := Atomic(OpenWallet(wallet), old(txRepo.Tables()));
        if taken || outcome.RolledBack? then
          && err == Some(UniqueViolation) && txRepo.Tables() == old(txRepo.Tables())
          && accounts == old(accounts) && wallets == old(wallets)
        else
          && err == None && txRepo.Tables() == outcome.db
          && accounts == old(accounts)[user := account] && wallets == old(wallets)[user := wallet]
      ensures err.None? ==>
        && forall u | u in old(accounts) ::
             var other := old(accounts)[u];
             && u != user && other.username != account.username && other.email != account.email
             && (account.googleId.Some? ==> other.googleId != account.googleId)
      ensures err.Some? ==>
        || user in old(accounts) || wallet in old(wallets).Values
        || (exists a | a in {IDR, USDT, USDC} :: Key(wallet, a) in old(txRepo.balances))
        || exists u | u in old(accounts) ::
             var other := old(accounts)[u];
             || other.username == account.username || other.email == account.email
             || (account.googleId.Some? && other.googleId == account.googleId)
    {
      if user in accounts || ClashesWithOne(accounts, account) { return Some(UniqueViolation); }
      if wallet in wallets.Values { return Some(UniqueViolation); }
      err := txRepo.CreateDefaultBalances(wallet);
      if err.Some? { return err; }
      ghost var before := wallets;
      accounts, wallets := accounts[user := account], wallets[user := wallet];
      assert forall u | u in before :: before[u] in before.Values && before[u] != wallet;
    }
  }
}
