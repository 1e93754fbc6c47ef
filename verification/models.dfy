/**
  The domain records the core reads from the store (package `models`).
  Only the fields the core touches are kept.
 */
module Models {

  newtype byte = b: int | 0 <= b < 256

  type Bytes = seq<byte>

  /** A registered account: store-assigned ID, email as stored, bcrypt hash of the password. */
  datatype User = User(id: int, email: string, passHash: Bytes)

  /** A client application: its ID and the secret its tokens are signed with. */
  datatype App = App(id: int, secret: string)
}
