/**
 * bcrypt as the routes use it: `hash(password, 10)` draws a salt and returns
 * a hash, `compare(password, hash)` tells whether the hash was made from the
 * password. Both are parameters of the model; `Sound` is what the routes rely
 * on them for.
 */
module PasswordHashing {

  datatype Hasher = Hasher(hash: (string, nat) -> string, compare: (string, string) -> bool)

  /** A hash is never empty, and it matches the password it was made from and no other one. */
  ghost predicate Sound(h: Hasher) {
    && (forall password, salt :: h.hash(password, salt) != "" && h.compare(password, h.hash(password, salt)))
    && (forall password, other, salt :: other != password ==> !h.compare(other, h.hash(password, salt)))
  }
}
