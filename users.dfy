/** System users (`res.users`) as the wizards look them up: by display name. */
module Users {
  import opened Text

  datatype User = User(name: string)

  /** The domain `[('name', '=ilike', name)]`. */
  function UserLike(name: string): User -> bool {
    (u: User) => ILikeEq(u.name, name)
  }

  /** The domain `[('name', '=', name)]`. */
  function UserNamed(name: string): User -> bool {
    (u: User) => u.name == name
  }
}
