/** The BCrypt password encoder, abstracted: an encoding records the salt it was made with
    and the password it digests, and `Matches` checks a raw password against it. The
    digest algorithm itself is not modelled. */
module Passwords {

  datatype PasswordHash = BCrypt(salt: string, digestOf: string)

  /** `passwordEncoder.encode(raw)` with the random salt passed in. */
  function Encode(raw: string, salt: string): (h: PasswordHash)
    ensures Matches(raw, h)
  {
    BCrypt(salt, raw)
  }

  /** `passwordEncoder.matches(raw, encoded)`. */
  predicate Matches(raw: string, h: PasswordHash)
  {
    h.digestOf == raw
  }

  /** An encoding matches exactly one password, whatever its salt. */
  lemma MatchesOnlyItsPassword(raw: string, other: string, salt: string)
    ensures Matches(other, Encode(raw, salt)) <==> other == raw
  {
  }
}
