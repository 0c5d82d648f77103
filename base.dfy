/** Shared vocabulary: optional values, the opaque Buffer type, and the
    external services (bcrypt, jsonwebtoken, uuid) that the handlers call
    but whose insides are not part of this model. */
module Base {

  datatype Option<+T> = None | Some(value: T)

  /** A Node Buffer built with `Buffer.from(text, "base64")`. Decoding is not
      modelled: the buffer is identified by the text it was built from. */
  datatype Bytes = FromBase64(encoded: string)

  /** bcrypt: `hash(plain)` is the stored digest, `compare(plain, digest)`
      whether a plaintext matches a stored digest. */
  datatype Crypt = Crypt(hash: string -> string, compare: (string, string) -> bool)

  /** The claims a token is signed over: `{ email, id }`. */
  datatype Claims = Claims(email: string, id: int)

  /** jsonwebtoken: `sign(claims, secret)` gives the token, `verify(token, secret)`
      whether a token checks out against a secret. */
  datatype Jwt = Jwt(sign: (Claims, string) -> string, verify: (string, string) -> bool)
}
