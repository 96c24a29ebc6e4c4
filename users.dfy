/** The user registry of `csv2sh`: user keys mapped to the identity that the
    generated commits are attributed to. */
module Users {

  /** A registry entry (`User` and `User::new`): display name and e-mail address. */
  datatype User = User(name: string, mail: string)

  type Registry = map<string, User>

  /** The registry that `new_users` builds: the single entry `taro`. */
  const DefaultUsers: Registry := map["taro" := User("Test Test", "test.test@example.com")]

  /** `new_users`: starts from an empty map and inserts the one built-in user. */
  method NewUsers() returns (users: Registry)
    ensures users.Keys == {"taro"}
    ensures users["taro"].name == "Test Test" && users["taro"].mail == "test.test@example.com"
    ensures users == DefaultUsers
  {
    users := map[];
    users := users["taro" := User("Test Test", "test.test@example.com")];
  }
}
