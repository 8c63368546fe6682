/**
 * Accounts: the map from user name to password digest, the login check and
 * account creation. The digest function is a parameter; the hash algorithm
 * behind it is not part of this model.
 */
module Auth {

  /** A password digest, as the hashing helper renders it. */
  type Digest = string

  datatype SignUpOutcome = Created | AlreadyExists

  /** The account table, loaded from the users file and updated in place on sign-up. */
  class Accounts {
    var users: map<string, Digest>

    constructor (loaded: map<string, Digest>)
      ensures users == loaded
    {
      users := loaded;
    }

    /** The login check: the name is known and the stored digest is the digest of the given password. */
    predicate LogIn(name: string, password: string, hash: string -> Digest)
      reads this
      ensures LogIn(name, password, hash) ==> name in users
    {
      name in users && users[name] == hash(password)
    }

    /**
     * Account creation: refused for a name already present, with the table
     * untouched; otherwise the name is stored with the password's digest.
     */
    method SignUp(name: string, password: string, hash: string -> Digest) returns (outcome: SignUpOutcome)
      modifies this
      ensures old(name in users) ==> outcome == AlreadyExists && users == old(users)
      ensures old(name !in users) ==> outcome == Created && users == old(users)[name := hash(password)]
      ensures outcome == Created ==> LogIn(name, password, hash)
      ensures forall u, p :: u != name ==> (LogIn(u, p, hash) <==> old(LogIn(u, p, hash)))
    {
      if name in users {
        return AlreadyExists;
      }
      users := users[name := hash(password)];
      outcome := Created;
    }
  }
}
