/**
 * The entities of src/dbmodels.py, reduced to what their constructors do:
 * each allocates an id that its own table does not hold yet, and the user
 * constructor also stores the credentials it is given.
 */
module Models {
  import opened Optional
  import opened Identifiers

  /** A persisted row of the user table. */
  datatype UserRow = UserRow(id: string, username: string, email: string, password: string)

  /** The rows of each table that allocation looks at: every table's ids, and the user rows in full. */
  class Database {
    var users: map<string, UserRow>
    var customers: set<string>
    var accounts: set<string>
    var withdrawals: set<string>
    var deposits: set<string>
    var transfers: set<string>
    var otps: set<int>

    constructor ()
      ensures users == map[] && customers == {} && accounts == {}
      ensures withdrawals == {} && deposits == {} && transfers == {} && otps == {}
    {
      users := map[];
      customers, accounts := {}, {};
      withdrawals, deposits, transfers := {}, {}, {};
      otps := {};
    }
  }

  class User {
    var id: string
    var username: string
    var email: string
    var password: string

    /** A user with a fresh id among the user rows and the credentials exactly as given. */
    constructor (username: string, email: string, password: string, db: Database, draws: seq<string>)
      requires HasFresh(db.users.Keys, draws)
      ensures unchanged(db)
      ensures id !in db.users
      ensures id == draws[FirstFreshIndex(db.users.Keys, draws)]
      ensures this.username == username && this.email == email && this.password == password
    {
      var newId, _ := AllocateId(db.users.Keys, draws);
      id := newId;
      this.username := username;
      this.password := password;
      this.email := email;
    }
  }

  class Customer {
    var id: string

    /** A customer whose id is the first draw the customer table does not hold. */
    constructor (db: Database, draws: seq<string>)
      requires HasFresh(db.customers, draws)
      ensures id !in db.customers
      ensures id == draws[FirstFreshIndex(db.customers, draws)]
    {
      var newId, _ := AllocateId(db.customers, draws);
      id := newId;
    }
  }

  class Withdraw {
    var id: string

    /** A withdrawal whose id is the first draw the withdrawal table does not hold. */
    constructor (db: Database, draws: seq<string>)
      requires HasFresh(db.withdrawals, draws)
      ensures id !in db.withdrawals
      ensures id == draws[FirstFreshIndex(db.withdrawals, draws)]
    {
      var newId, _ := AllocateId(db.withdrawals, draws);
      id := newId;
    }
  }

  class Deposit {
    var id: string

    /** A deposit whose id is the first draw the deposit table does not hold. */
    constructor (db: Database, draws: seq<string>)
      requires HasFresh(db.deposits, draws)
      ensures id !in db.deposits
      ensures id == draws[FirstFreshIndex(db.deposits, draws)]
    {
      var newId, _ := AllocateId(db.deposits, draws);
      id := newId;
    }
  }

  class Transfer {
    var id: string

    /** A transfer whose id is the first draw the transfer table does not hold. */
    constructor (db: Database, draws: seq<string>)
      requires HasFresh(db.transfers, draws)
      ensures id !in db.transfers
      ensures id == draws[FirstFreshIndex(db.transfers, draws)]
    {
      var newId, _ := AllocateId(db.transfers, draws);
      id := newId;
    }
  }

  class Account {
    var id: string

    /**
     * An account whose id is the first draw the account table does not hold.
     * The requested id is accepted and never read: the loop always overwrites it.
     */
    constructor (requested: Option<string>, db: Database, draws: seq<string>)
      requires HasFresh(db.accounts, draws)
      ensures id !in db.accounts
      ensures id == draws[FirstFreshIndex(db.accounts, draws)]
    {
      var newId, _ := AllocateId(db.accounts, draws);
      id := newId;
    }
  }

  /** The bounds of randint(100000, 1000000), both included. */
  const OtpMin := 100000
  const OtpMax := 1000000

  /** The one-time-passcode candidates that raw random values give. */
  function OtpCandidates(raw: seq<nat>): (c: seq<int>)
    ensures |c| == |raw|
    ensures forall i :: 0 <= i < |c| ==> OtpMin <= c[i] <= OtpMax
  {
    seq(|raw|, i requires 0 <= i < |raw| => RandInt(OtpMin, OtpMax, raw[i]))
  }

  /** Python's `not self.id`: no id yet, or an id that is falsy (0). */
  predicate Unset(id: Option<int>) {
    id.None? || id.value == 0
  }

  class AppOtp {
    /** None while the passcode has no id. */
    var id: Option<int>

    /**
     * A passcode with a fresh id in [OtpMin, OtpMax]. The requested id is
     * accepted and never read, so the id starts unset and is always allocated.
     */
    constructor (requested: int, db: Database, raw: seq<nat>)
      requires HasFresh(db.otps, OtpCandidates(raw))
      ensures id.Some? && id.value !in db.otps && OtpMin <= id.value <= OtpMax
      ensures id == Some(OtpCandidates(raw)[FirstFreshIndex(db.otps, OtpCandidates(raw))])
    {
      id := None;
      new;
      AssignIdIfUnset(db, raw);
    }

    /** Allocates an id from the passcode table only when this passcode's id is unset or falsy. */
    method AssignIdIfUnset(db: Database, raw: seq<nat>)
      requires Unset(id) ==> HasFresh(db.otps, OtpCandidates(raw))
      modifies this
      ensures !Unset(old(id)) ==> id == old(id)
      ensures Unset(old(id)) ==>
        id == Some(OtpCandidates(raw)[FirstFreshIndex(db.otps, OtpCandidates(raw))])
        && id.value !in db.otps && OtpMin <= id.value <= OtpMax
    {
      if Unset(id) {
        var newId, _ := AllocateId(db.otps, OtpCandidates(raw));
        id := Some(newId);
      }
    }
  }

  /**
   * Allocation is scoped to one table: a new customer may take an id that an
   * account already has.
   */
  method CustomerMayShareAccountId() returns (db: Database, c: Customer)
    ensures c.id in db.accounts && c.id !in db.customers
  {
    db := new Database();
    var token := "0123456789abcdef0123456789abcdef";
    db.accounts := {token};
    var draws := [token];
    assert draws[0] !in db.customers;
    c := new Customer(db, draws);
  }
}
