/**
 * The WordPress user store as the import sees it: accounts keyed by login name, looked up by
 * login and by e-mail, created by `wp_create_user` and updated by id through `wp_update_user`.
 * Passwords are not modelled.
 */
module Accounts {
  import opened Options

  datatype Account = Account(id: nat, email: string, firstName: string, lastName: string, role: string)

  /**
   * The store's state: the accounts by login, the id the next account gets, the logins the
   * store's own validation refuses to create, and the role a new account starts with.
   */
  datatype Store = Store(accounts: map<string, Account>, nextId: nat, refused: set<string>, defaultRole: string)

  /** Ids are positive, below the next id, and distinct. */
  ghost predicate StoreValid(s: Store) {
    && s.nextId >= 1
    && (forall u | u in s.accounts :: 1 <= s.accounts[u].id < s.nextId)
    && (forall u, v | u in s.accounts && v in s.accounts && u != v :: s.accounts[u].id != s.accounts[v].id)
  }

  /** email_exists: the address is not empty and some account has it. */
  predicate HasEmail(accounts: map<string, Account>, email: string) {
    email != "" && exists u | u in accounts :: accounts[u].email == email
  }

  /** wp_update_user with an id, names and a role: the account with that id, if any, gets them. */
  function WithProfile(accounts: map<string, Account>, id: int, firstName: string, lastName: string, role: string)
    : map<string, Account>
  {
    map u | u in accounts :: if accounts[u].id == id then accounts[u].(firstName := firstName, lastName := lastName, role := role) else accounts[u]
  }

  /** Whether wp_create_user fails: a refused login, or a login or e-mail already taken. */
  predicate CreateFails(s: Store, username: string, email: string) {
    username in s.refused || username in s.accounts || HasEmail(s.accounts, email)
  }

  /** The store after wp_create_user: unchanged on failure, else one new account with the next id. */
  function AfterCreate(s: Store, username: string, email: string): Store {
    if CreateFails(s, username, email) then s
    else s.(accounts := s.accounts[username := Account(s.nextId, email, "", "", s.defaultRole)], nextId := s.nextId + 1)
  }

  /** Updating by an id no account carries (0, what PHP makes of `false`) changes nothing. */
  lemma WithProfileOfUnknownId(s: Store, id: int, firstName: string, lastName: string, role: string)
    requires StoreValid(s)
    requires id < 1
    ensures WithProfile(s.accounts, id, firstName, lastName, role) == s.accounts
  {
  }

  /** Updating by the id of a login's account changes that account's names and role and nothing else. */
  lemma WithProfileOfLogin(s: Store, username: string, firstName: string, lastName: string, role: string)
    requires StoreValid(s)
    requires username in s.accounts
    ensures var a := s.accounts[username];
            WithProfile(s.accounts, a.id, firstName, lastName, role)
            == s.accounts[username := a.(firstName := firstName, lastName := lastName, role := role)]
  {
  }

  /** A successful create keeps the store valid and hands out a fresh id. */
  lemma AfterCreateKeepsValid(s: Store, username: string, email: string)
    requires StoreValid(s)
    ensures StoreValid(AfterCreate(s, username, email))
  {
  }

  class UserStore {
    var accounts: map<string, Account>
    var nextId: nat
    const refused: set<string>
    const defaultRole: string

    function State(): Store
      reads this
    {
      Store(accounts, nextId, refused, defaultRole)
    }

    ghost predicate Valid()
      reads this
    {
      StoreValid(State())
    }

    constructor (refused: set<string>, defaultRole: string)
      ensures Valid()
      ensures State() == Store(map[], 1, refused, defaultRole)
    {
      this.accounts := map[];
      this.nextId := 1;
      this.refused := refused;
      this.defaultRole := defaultRole;
    }

    /** username_exists: the account's id, or 0 standing for PHP's `false`. */
    method UsernameExists(username: string) returns (id: nat)
      requires Valid()
      ensures id == (if username in accounts then accounts[username].id else 0)
      ensures id == 0 <==> username !in accounts
    {
      id := if username in accounts then accounts[username].id else 0;
    }

    /** email_exists, reduced to whether some account has the address; an empty address is never found. */
    method EmailExists(email: string) returns (found: bool)
      ensures email == "" ==> !found
      ensures email != "" ==> (found <==> exists u | u in accounts :: accounts[u].email == email)
    {
      found := HasEmail(accounts, email);
    }

    /** wp_create_user: the new account's id, or None for the WP_Error it returns on failure. */
    method CreateUser(username: string, email: string) returns (id: Option<nat>)
      requires Valid()
      modifies this
      ensures Valid()
      ensures State() == AfterCreate(old(State()), username, email)
      ensures id == if CreateFails(old(State()), username, email) then None else Some(old(nextId))
    {
      AfterCreateKeepsValid(State(), username, email);
      if CreateFails(State(), username, email) {
        id := None;
      } else {
        id := Some(nextId);
        accounts := accounts[username := Account(nextId, email, "", "", defaultRole)];
        nextId := nextId + 1;
      }
    }

    /** wp_update_user with ID, first_name, last_name and role. */
    method UpdateUser(id: int, firstName: string, lastName: string, role: string)
      requires Valid()
      modifies this
      ensures Valid()
      ensures State() == old(State()).(accounts := WithProfile(old(accounts), id, firstName, lastName, role))
    {
      accounts := WithProfile(accounts, id, firstName, lastName, role);
    }
  }
}
