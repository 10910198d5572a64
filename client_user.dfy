/**
 * The user object the client components pass around (`User` of the client
 * types, plus the `iniciales` the legacy context adds). Every property may be
 * missing at run time; None is a missing or null property.
 */
module ClientUser {
  import opened Wrappers

  datatype User = User(id: Option<string>, nombre: Option<string>, usuario: Option<string>,
                       email: Option<string>, iniciales: Option<string>)

  /** A JavaScript-truthy string property: present and non-empty. */
  predicate Truthy(f: Option<string>) {
    f.Some? && f.value != ""
  }
}
