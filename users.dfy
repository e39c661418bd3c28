/** The user models: BaseUser with its defaults, and the two subclasses
    Anonymous and User, which add neither fields nor behaviour. */
module Users {
  import opened Values

  /** Which model a user value was built as. */
  datatype Class = BaseUserClass | AnonymousClass | UserClass

  /** BaseUser's fields; `joinDate` is an abstract timestamp. */
  datatype User = User(cls: Class, id: int, en: Option<bool>, name: string, joinDate: Option<int>)

  /** `is_authenticated` is the truthiness of the id. */
  predicate IsAuthenticated(u: User) {
    Truthy(Int(u.id))
  }

  /** A model built with every field left at its default (`en` is an
      optional field without a default, so it is None too). */
  function Default(cls: Class): (u: User)
    ensures u.cls == cls && u.id == 0 && u.en == None && u.name == "" && u.joinDate == None
    ensures !IsAuthenticated(u)
  {
    User(cls, 0, None, "", None)
  }

  /** `Anonymous()`: the default user, never authenticated. */
  function Anonymous(): (u: User)
    ensures u.cls == AnonymousClass && u.id == 0 && u.name == ""
    ensures u.en == None && u.joinDate == None
    ensures !IsAuthenticated(u)
  {
    Default(AnonymousClass)
  }

  /** A `User` parsed from a row of the users table. */
  function FromRow(id: int, en: Option<bool>, name: string, joinDate: Option<int>): (u: User)
    ensures u.cls == UserClass && u.id == id && u.name == name
    ensures u.en == en && u.joinDate == joinDate
    ensures IsAuthenticated(u) <==> id != 0
  {
    User(UserClass, id, en, name, joinDate)
  }

  /** Every model shares one predicate: authenticated exactly when the id is non-zero. */
  lemma AuthenticatedIffNonzeroId(u: User)
    ensures IsAuthenticated(u) <==> u.id != 0
  {
  }
}
