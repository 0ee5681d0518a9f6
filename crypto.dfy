/**
 * bcrypt, as the signup handler and the local strategy use it. Its internals are not
 * modelled: a hasher is a pair of function values, and what callers rely on is stated
 * as predicates over that pair.
 */
module Crypto {
  /** What `genSaltSync(rounds)` returns: the cost factor and the random salt characters. */
  datatype Salt = Salt(rounds: nat, nonce: string)

  /** `hashSync(password, salt)` and `compareSync(password, hash)`. */
  datatype Bcrypt = Bcrypt(hash: (string, Salt) -> string, compare: (string, string) -> bool)

  /** A password always matches a hash made from it, whatever the salt. */
  ghost predicate Sound(b: Bcrypt)
  {
    forall pw: string, s: Salt :: b.compare(pw, b.hash(pw, s))
  }

  /** Hashing never hands back the password itself. */
  ghost predicate NeverPlaintext(b: Bcrypt)
  {
    forall pw: string, s: Salt :: b.hash(pw, s) != pw
  }
}
