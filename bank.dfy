/**
 * The dashboard's accounts and its single session, and the login, transfer
 * and close handlers, each taking its input fields' values as parameters.
 */
module Bank {
  import opened Wrappers
  import opened Arrays
  import opened Ledger
  import opened Usernames

  /** The hard-coded data an account starts from. */
  datatype AccountData = AccountData(owner: string, movements: seq<int>, interestRate: real, pin: int)

  /** The four demo accounts, in the order of the `accounts` array. */
  function Fixtures(): (r: seq<AccountData>)
    ensures |r| == 4
    ensures forall i, j :: 0 <= i < j < |r| ==> r[i].owner != r[j].owner && r[i].pin != r[j].pin
    ensures forall d :: d in r ==> d.interestRate > 0.0
  {
    [ AccountData("Jonas Schmedtmann", [200, 450, -400, 3000, -650, -130, 70, 1300], 1.2, 1111),
      AccountData("Jessica Davis", [5000, 3400, -150, -790, -3210, -1000, 8500, -30], 1.5, 2222),
      AccountData("Steven Thomas Williams", [200, -200, 340, -300, -20, 50, 400, -460], 0.7, 3333),
      AccountData("Sarah Smith", [430, 1000, 700, 50, 90], 1.0, 4444) ]
  }

  /** Every demo account starts with some movements and a balance that is not negative. */
  lemma FixturesAreSound()
    ensures forall d :: d in Fixtures() ==> d.movements != [] && Sum(d.movements) >= 0
  {
    forall i | 0 <= i < |Fixtures()| ensures Fixtures()[i].movements != [] && Sum(Fixtures()[i].movements) >= 0 {
      FixtureIsSound(i);
    }
  }

  lemma FixtureIsSound(i: nat)
    requires i < |Fixtures()|
    ensures Fixtures()[i].movements != [] && Sum(Fixtures()[i].movements) >= 0
  {
    if i == 0 {
      FirstFixtureIsSound();
    } else if i == 1 {
      SecondFixtureIsSound();
    } else if i == 2 {
      ThirdFixtureIsSound();
    } else {
      FourthFixtureIsSound();
    }
  }

  lemma FirstFixtureIsSound()
    ensures Sum(Fixtures()[0].movements) == 3840
  {
    assert Fixtures()[0].movements == [200, 450, -400, 3000, -650, -130, 70, 1300];
  }

  lemma SecondFixtureIsSound()
    ensures Sum(Fixtures()[1].movements) == 11720
  {
    assert Fixtures()[1].movements == [5000, 3400, -150, -790, -3210, -1000, 8500, -30];
  }

  lemma ThirdFixtureIsSound()
    ensures Sum(Fixtures()[2].movements) == 10
  {
    assert Fixtures()[2].movements == [200, -200, 340, -300, -20, 50, 400, -460];
  }

  lemma FourthFixtureIsSound()
    ensures Sum(Fixtures()[3].movements) == 2270
  {
    assert Fixtures()[3].movements == [430, 1000, 700, 50, 90];
  }

  /** Page load: the bank over the four demo accounts. */
  method Startup() returns (bank: Bank)
    ensures fresh(bank) && bank.Valid() && bank.current == null
    ensures |bank.accounts| == |Fixtures()|
    ensures forall i :: 0 <= i < |bank.accounts| ==>
      bank.accounts[i].owner == Fixtures()[i].owner && bank.accounts[i].movements == Fixtures()[i].movements &&
      bank.accounts[i].interestRate == Fixtures()[i].interestRate && bank.accounts[i].pin == Fixtures()[i].pin &&
      bank.accounts[i].balance == None
    ensures forall i, j :: 0 <= i < j < |bank.accounts| ==> bank.accounts[i] != bank.accounts[j]
  {
    FixturesAreSound();
    bank := new Bank(Fixtures());
  }

  /**
   * One account object. `balance` is the figure `updateBalance` last stored
   * (None while it has never been computed); `username` is filled in by
   * `CreateUserNames` at start-up.
   */
  class Account {
    const owner: string
    var movements: seq<int>
    const interestRate: real
    const pin: int
    var username: string
    var balance: Option<int>

    constructor (data: AccountData)
      ensures owner == data.owner && movements == data.movements
      ensures interestRate == data.interestRate && pin == data.pin
      ensures username == "" && balance == None
    {
      owner := data.owner;
      movements := data.movements;
      interestRate := data.interestRate;
      pin := data.pin;
      username := "";
      balance := None;
    }

    /** The account carries the username derived from its owner. */
    ghost predicate Named()
      reads this
    {
      username == Username(owner)
    }

    /**
     * What every account keeps: it has movements, it is not overdrawn, and a
     * stored balance may be stale but never exceeds the real one (money only
     * arrives behind its back).
     */
    ghost predicate Sound()
      reads this
    {
      movements != [] && Sum(movements) >= 0 &&
      (balance.Some? ==> balance.value <= Sum(movements))
    }
  }

  /** Every account in the list carries its derived username and is sound. */
  ghost predicate AllHealthy(accounts: seq<Account>)
    reads accounts
  {
    forall a :: a in accounts ==> a.Named() && a.Sound()
  }

  lemma HealthyAfterSplice(accounts: seq<Account>, k: int)
    requires AllHealthy(accounts)
    ensures AllHealthy(Splice(accounts, k, Some(1)))
  {
    SpliceKeepsOnlyElements(accounts, k, Some(1));
  }

  /**
   * `accounts.findIndex(a => a.username === name)`: the index of the first
   * account with that username, or -1.
   */
  function IndexOfUser(accounts: seq<Account>, name: string): (r: int)
    reads accounts`username
    ensures -1 <= r < |accounts|
    ensures r >= 0 ==> accounts[r].username == name
    ensures forall j :: 0 <= j < |accounts| && (r == -1 || j < r) ==> accounts[j].username != name
  {
    if accounts == [] then -1
    else if accounts[0].username == name then 0
    else
      var r := IndexOfUser(accounts[1..], name);
      if r == -1 then -1 else r + 1
  }

  /** One fresh account object per entry of `data`, in order, as the object literals create them. */
  method NewAccounts(data: seq<AccountData>) returns (made: seq<Account>)
    ensures |made| == |data|
    ensures forall j :: 0 <= j < |made| ==> fresh(made[j])
    ensures forall j, k :: 0 <= j < k < |made| ==> made[j] != made[k]
    ensures forall j :: 0 <= j < |made| ==>
      made[j].owner == data[j].owner && made[j].movements == data[j].movements &&
      made[j].interestRate == data[j].interestRate && made[j].pin == data[j].pin &&
      made[j].balance == None
  {
    made := [];
    for i := 0 to |data|
      invariant |made| == i
      invariant forall j :: 0 <= j < i ==> fresh(made[j])
      invariant forall j, k :: 0 <= j < k < i ==> made[j] != made[k]
      invariant forall j :: 0 <= j < i ==>
        made[j].owner == data[j].owner && made[j].movements == data[j].movements &&
        made[j].interestRate == data[j].interestRate && made[j].pin == data[j].pin &&
        made[j].balance == None
    {
      var a := new Account(data[i]);
      made := made + [a];
    }
  }

  /** Looking up an account's own username finds an account. */
  lemma IndexOfMember(accounts: seq<Account>, a: Account)
    requires a in accounts
    ensures IndexOfUser(accounts, a.username) != -1
  {
    var j :| 0 <= j < |accounts| && accounts[j] == a;
  }

  /** `createUserNames`: gives every account the username derived from its owner. */
  method CreateUserNames(accounts: seq<Account>)
    modifies accounts`username
    ensures forall i :: 0 <= i < |accounts| ==> accounts[i].username == Username(accounts[i].owner)
  {
    for i := 0 to |accounts|
      invariant forall j :: 0 <= j < i ==> accounts[j].username == Username(accounts[j].owner)
    {
      accounts[i].username := Username(accounts[i].owner);
    }
  }

  /** `updateBalance`: stores the sum of the movements, which `reduce` needs to be non-empty. */
  method UpdateBalance(account: Account)
    requires account.movements != []
    modifies account`balance
    ensures account.balance == Balance(account.movements)
    ensures account.balance == Some(Sum(account.movements))
  {
    account.balance := Balance(account.movements);
  }

  /** The transfer itself: `-amount` onto the sender's movements, `amount` onto the receiver's; no money is made or lost. */
  method Deliver(sender: Account, receiver: Account, amount: int)
    requires sender != receiver
    modifies sender`movements, receiver`movements
    ensures sender.movements == old(sender.movements) + [-amount]
    ensures receiver.movements == old(receiver.movements) + [amount]
    ensures Sum(sender.movements) == old(Sum(sender.movements)) - amount
    ensures Sum(receiver.movements) == old(Sum(receiver.movements)) + amount
  {
    SumAppend(sender.movements, -amount);
    SumAppend(receiver.movements, amount);
    sender.movements := sender.movements + [-amount];
    receiver.movements := receiver.movements + [amount];
  }

  /** What `updateUI` puts on screen: the history rows, the balance and the summary. */
  datatype View = View(rows: seq<Row>, balance: int, summary: Summary)

  /**
   * The dashboard shows `account` up to date: its stored balance is the sum of
   * its movements, and the rows, balance and summary on screen are its own.
   */
  ghost predicate Shows(view: View, account: Account)
    reads account
  {
    account.balance == Some(Sum(account.movements)) &&
    NewestFirst(view.rows, account.movements) &&
    view.balance == Sum(account.movements) &&
    view.summary == AccountSummary(account.movements, account.interestRate)
  }

  /** `updateUI`: history, balance (stored on the account) and summary of one account. */
  method UpdateUI(account: Account) returns (view: View)
    requires account.movements != []
    modifies account`balance
    ensures Shows(view, account)
  {
    var rows := DisplayMovements(account.movements);
    UpdateBalance(account);
    view := View(rows, account.balance.value, AccountSummary(account.movements, account.interestRate));
  }

  /**
   * The dashboard: the `accounts` array and `currentAccount`, the session
   * (null while it is undefined). The session is not cleared by closing, so it
   * may refer to an account that is no longer in the list.
   */
  class Bank {
    var accounts: seq<Account>
    var current: Account?

    ghost predicate Valid()
      reads this, accounts, current
    {
      AllHealthy(accounts) && (current != null ==> current.Named() && current.Sound())
    }

    /** The session account, as a set: empty while nobody is logged in. */
    function Session(): set<Account>
      reads this
    {
      if current == null then {} else {current}
    }

    /** `accounts.find(a => a.username === name)`. */
    function Find(name: string): (a: Account?)
      reads this, accounts`username
      ensures a == null <==> IndexOfUser(accounts, name) == -1
      ensures a != null ==> a == accounts[IndexOfUser(accounts, name)] && a in accounts && a.username == name
    {
      var i := IndexOfUser(accounts, name);
      if i == -1 then null else accounts[i]
    }

    /** Whether the transfer handler's guard lets a transfer through. */
    ghost predicate Permits(amount: int, to: string)
      reads this, accounts, current
      ensures Permits(amount, to) ==> current != null && amount > 0 && Find(to) != null && Find(to) != current
      ensures Permits(amount, to) && current.Sound() ==> amount <= Sum(current.movements)
    {
      current != null && amount > 0 && Find(to) != null &&
      current.balance.Some? && current.balance.value >= amount &&
      Find(to).username != current.username
    }

    /**
     * The `accounts` array built from `data`, then `createUserNames`; nobody is
     * logged in. Every account must start with some movements and a balance
     * that is not negative, as the demo data does (`FixturesAreSound`).
     */
    constructor (data: seq<AccountData>)
      requires forall d :: d in data ==> d.movements != [] && Sum(d.movements) >= 0
      ensures Valid() && current == null
      ensures |accounts| == |data|
      ensures forall i :: 0 <= i < |accounts| ==>
        accounts[i].owner == data[i].owner && accounts[i].movements == data[i].movements &&
        accounts[i].interestRate == data[i].interestRate && accounts[i].pin == data[i].pin &&
        accounts[i].balance == None
      ensures forall i, j :: 0 <= i < j < |accounts| ==> accounts[i] != accounts[j]
    {
      var made := NewAccounts(data);
      CreateUserNames(made);
      accounts := made;
      current := null;
      forall a | a in made ensures a.Named() && a.Sound() {
        var j :| 0 <= j < |made| && made[j] == a;
        assert data[j] in data;
      }
    }

    /**
     * The login handler. The session becomes the first account with that
     * username (or none) whatever PIN was typed; only when the PIN matches is
     * the dashboard shown and brought up to date.
     */
    method Login(name: string, pin: int) returns (welcome: Option<string>, view: Option<View>)
      requires Valid()
      modifies this`current, accounts`balance
      ensures Valid() && accounts == old(accounts)
      ensures current == old(Find(name))
      ensures view.Some? <==> current != null && current.pin == pin
      ensures welcome.Some? <==> view.Some?
      ensures view.Some? ==> welcome.value == "Welcome back, " + FirstName(current.owner) && Shows(view.value, current)
      ensures forall a :: a in accounts && (view.None? || a != current) ==> a.balance == old(a.balance)
    {
      current := Find(name);
      if current != null && current.pin == pin {
        welcome := Some("Welcome back, " + FirstName(current.owner));
        var v := UpdateUI(current);
        view := Some(v);
      } else {
        welcome, view := None, None;
      }
    }

    /**
     * The login handler as evidently intended: the session moves to the found
     * account only when its PIN matches; a failed login leaves the session as
     * it was.
     */
    method LoginChecked(name: string, pin: int) returns (welcome: Option<string>, view: Option<View>)
      requires Valid()
      modifies this`current, accounts`balance
      ensures Valid() && accounts == old(accounts)
      ensures view.Some? <==> old(Find(name)) != null && old(Find(name)).pin == pin
      ensures view.Some? ==> current == old(Find(name))
      ensures view.None? ==> current == old(current)
      ensures current != old(current) ==> current != null && current.pin == pin
      ensures welcome.Some? <==> view.Some?
      ensures view.Some? ==> welcome.value == "Welcome back, " + FirstName(current.owner) && Shows(view.value, current)
      ensures forall a :: a in accounts && (view.None? || a != current) ==> a.balance == old(a.balance)
    {
      var found := Find(name);
      if found != null && found.pin == pin {
        current := found;
        welcome := Some("Welcome back, " + FirstName(current.owner));
        var v := UpdateUI(current);
        view := Some(v);
      } else {
        welcome, view := None, None;
      }
    }

    /**
     * The transfer handler. It takes effect only when the amount is positive,
     * the receiver exists, the stored balance covers the amount and the
     * receiver's username differs from the sender's; it then appends `-amount`
     * to the sender and `amount` to the receiver. Either way the dashboard of a
     * logged-in sender is refreshed; without a session nothing happens.
     */
    method Transfer(amount: int, to: string) returns (done: bool, view: Option<View>, ghost receiver: Account?)
      requires Valid()
      modifies accounts, Session()
      ensures Valid() && accounts == old(accounts) && current == old(current)
      ensures receiver == old(Find(to))
      ensures done == old(Permits(amount, to))
      ensures done ==> 0 < amount <= old(Sum(current.movements)) && receiver != current
      ensures current != null && to == current.username ==> !done
      ensures done ==>
        current.movements == old(current.movements) + [-amount] &&
        receiver.movements == old(receiver.movements) + [amount] &&
        Sum(current.movements) + Sum(receiver.movements) ==
        old(Sum(current.movements)) + old(Sum(receiver.movements))
      ensures forall a :: a in accounts && a != current && (!done || a != receiver) ==> a.movements == old(a.movements)
      ensures current != null && !done ==> current.movements == old(current.movements)
      ensures forall a :: a in accounts && a != current ==> a.balance == old(a.balance)
      ensures forall a :: a in accounts ==> a.username == old(a.username)
      ensures view.Some? <==> current != null
      ensures view.Some? ==> Shows(view.value, current)
    {
      var found := Find(to);
      receiver := found;
      if current == null {
        return false, None, receiver;
      }
      assert current.Sound();
      done := amount > 0 && found != null &&
        current.balance.Some? && current.balance.value >= amount &&
        found.username != current.username;
      if done {
        Deliver(current, found, amount);
      }
      var v := UpdateUI(current);
      view := Some(v);
      assert current.Sound();
      forall a | a in accounts
        ensures a.Named() && a.Sound()
      {
        assert old(a.Named() && a.Sound());
        if a != current && !(done && a == found) {
          assert a.movements == old(a.movements) && a.balance == old(a.balance);
        }
      }
    }

    /**
     * `accounts.splice(k, 1)` for an index `findIndex` returned: the account at
     * a found index goes, and -1 takes the last account.
     */
    method RemoveAt(k: int)
      requires Valid() && -1 <= k < |accounts|
      modifies this`accounts
      ensures Valid() && current == old(current)
      ensures accounts == Splice(old(accounts), k, Some(1))
      ensures k != -1 ==> |accounts| == |old(accounts)| - 1 && accounts == old(accounts)[..k] + old(accounts)[k + 1..]
      ensures k == -1 ==> accounts == if old(accounts) == [] then [] else old(accounts)[..|old(accounts)| - 1]
    {
      SpliceFound(accounts, k);
      HealthyAfterSplice(accounts, k);
      accounts := Splice(accounts, k, Some(1));
    }

    /**
     * The close handler. When the typed username and PIN are the session's,
     * it splices out the element at the index `findIndex` gives for the
     * session's username. The session itself is kept.
     */
    method Close(name: string, pin: int) returns (closed: bool, ghost index: int)
      requires Valid()
      modifies this`accounts
      ensures Valid() && current == old(current)
      ensures closed <==> current != null && current.username == name && current.pin == pin
      ensures !closed ==> accounts == old(accounts)
      ensures closed ==> index == IndexOfUser(old(accounts), name) && accounts == Splice(old(accounts), index, Some(1))
      ensures closed && current in old(accounts) ==> index != -1
      ensures closed && index != -1 ==>
        |accounts| == |old(accounts)| - 1 && accounts == old(accounts)[..index] + old(accounts)[index + 1..]
      ensures closed && index == -1 ==>
        accounts == if old(accounts) == [] then [] else old(accounts)[..|old(accounts)| - 1]
    {
      index := -1;
      if current == null {
        return false, index;
      }
      closed := current.username == name && current.pin == pin;
      if closed {
        var k := IndexOfUser(accounts, current.username);
        if current in accounts {
          IndexOfMember(accounts, current);
        }
        RemoveAt(k);
        index := k;
      }
    }
  }

  /**
   * Login with a wrong PIN, then two transfer clicks, as the handlers are
   * written: the session is the account whose PIN was not given, the first
   * refused transfer still refreshes its stored balance, and so money leaves
   * that account.
   */
  method WrongPinTransfer(bank: Bank, name: string, wrongPin: int, amount: int, to: string)
      returns (first: bool, second: bool)
    requires bank.Valid()
    requires bank.Find(name) != null && bank.Find(name).pin != wrongPin
    requires bank.Find(to) != null && to != name
    requires 0 < amount <= Sum(bank.Find(name).movements)
    modifies bank, bank.accounts
    ensures bank.current == old(bank.Find(name)) && bank.current.pin != wrongPin
    ensures first || second
    ensures old(bank.Find(name).balance) == None ==> !first && second
    ensures Sum(bank.current.movements) < old(Sum(bank.Find(name).movements))
  {
    var welcome, view := bank.Login(name, wrongPin);
    ghost var victim := bank.current;
    ghost var start := victim.movements;
    assert start == old(bank.Find(name).movements);
    var v1, v2;
    ghost var r1, r2;
    first, v1, r1 := bank.Transfer(amount, to);
    ghost var middle := victim.movements;
    if !first {
      assert middle == start;
      assert bank.current == victim && victim.username == name && r1.username == to;
      assert victim.balance == Some(Sum(start));
      assert bank.Permits(amount, to);
    }
    second, v2, r2 := bank.Transfer(amount, to);
    Debits(start, middle, victim.movements, amount, first, second);
  }

  /** Two transfer clicks of `amount`, at least one of which went through, leave less money than before. */
  lemma Debits(start: seq<int>, middle: seq<int>, end: seq<int>, amount: int, first: bool, second: bool)
    requires amount > 0 && (first || second)
    requires middle == if first then start + [-amount] else start
    requires end == if second then middle + [-amount] else middle
    ensures Sum(end) < Sum(start)
  {
    SumAppend(start, -amount);
    SumAppend(middle, -amount);
  }

  /**
   * The same clicks with the intended login, starting logged out: the wrong
   * PIN gives no session, so neither transfer moves any money.
   */
  method CheckedWrongPinTransfer(bank: Bank, name: string, wrongPin: int, amount: int, to: string)
      returns (first: bool, second: bool)
    requires bank.Valid() && bank.current == null
    requires bank.Find(name) != null && bank.Find(name).pin != wrongPin
    modifies bank, bank.accounts
    ensures bank.current == null && bank.accounts == old(bank.accounts)
    ensures !first && !second
    ensures forall a :: a in bank.accounts ==> a.movements == old(a.movements)
  {
    var welcome, view := bank.LoginChecked(name, wrongPin);
    var v1, v2;
    ghost var r1, r2;
    first, v1, r1 := bank.Transfer(amount, to);
    second, v2, r2 := bank.Transfer(amount, to);
  }
}
