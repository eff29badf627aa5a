/** The fixed credential registry of the hostel manager. */
module Credentials {

  /** One registry entry: the plaintext password and the role it grants. */
  datatype Account = Account(password: string, role: string)

  /** The registry: two accounts, fixed for the lifetime of the process. */
  const Users: map<string, Account> :=
    map["admin" := Account("admin123", "admin"),
        "viewer" := Account("view123", "viewer")]

  /** A login attempt is accepted when the name is registered and the
      password matches that entry exactly: that is, for exactly the two
      registered pairs, and nothing else. */
  predicate Authenticates(username: string, password: string)
    ensures Authenticates(username, password) <==>
              (username == "admin" && password == "admin123") ||
              (username == "viewer" && password == "view123")
  {
    username in Users && Users[username].password == password
  }

  /** Every role the registry grants is one of the two known roles. */
  lemma RegistryRoles(username: string)
    requires username in Users
    ensures Users[username].role == "admin" || Users[username].role == "viewer"
    ensures Users[username].role == "admin" <==> username == "admin"
  {
  }
}
