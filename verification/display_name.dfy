/** The label under which a user's message is shown to the administrator. */
module DisplayName {
  import opened Wrappers

  /** The part of a platform user the bot reads: the optional handle
      (`username`) and the full name, which is always a string but may be empty. */
  datatype User = User(username: Option<string>, fullName: string)

  /** The label used when a user has neither a handle nor a name. */
  const Placeholder: string := "Unknown"

  /** Python truthiness of `user.username`: present and not empty. */
  predicate HasHandle(u: User) {
    u.username.Some? && u.username.value != []
  }

  /** `get_display_name`: the handle with an `@` in front if there is one,
      otherwise the full name if it is not empty, otherwise the placeholder.
      The label is never empty. */
  function GetDisplayName(u: User): (name: string)
    ensures name != []
    ensures HasHandle(u) ==> name == "@" + u.username.value
    ensures !HasHandle(u) && u.fullName != [] ==> name == u.fullName
    ensures !HasHandle(u) && u.fullName == [] ==> name == Placeholder
  {
    if HasHandle(u) then "@" + u.username.value
    else if u.fullName != [] then u.fullName
    else Placeholder
  }

  /** The handle takes precedence: two users with the same non-empty handle
      get the same label whatever their names, and that label gives the
      handle back after its leading `@`. */
  lemma HandleDecidesLabel(u: User, v: User)
    requires HasHandle(u) && v.username == u.username
    ensures GetDisplayName(u) == GetDisplayName(v)
    ensures GetDisplayName(u)[0] == '@' && GetDisplayName(u)[1..] == u.username.value
  {
  }
}
