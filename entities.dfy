/** Rows of the tables the authentication resolver reads and writes, the claim a signed token
    carries, and the mails it sends. */
module Entities {
  import opened Wrappers

  /** A row of the user table. `password` holds the stored hash, never the plain text; `authorId`
      is the one-to-one link to the author profile; times are instants in milliseconds. */
  datatype User = User(
    id: nat,
    email: string,
    password: string,
    authorId: nat,
    isVerified: bool,
    createdAt: int,
    updatedAt: int)

  /** A row of the author table (the profile created at sign-up). */
  datatype Author = Author(id: nat, name: string)

  /** A row of the email-verification token table. */
  datatype VerifyToken = VerifyToken(email: string, token: string, createdAt: int)

  /** A row of the forgot-password token table. */
  datatype ForgotPasswordToken = ForgotPasswordToken(
    id: nat,
    email: string,
    token: string,
    createdAt: int,
    updatedAt: int)

  /** The decoded claim of a signed token. Tokens are signed with the user id alone, so
      `isVerified` is absent (`undefined`) unless the signer put it there. */
  datatype Claim = Claim(userId: nat, isVerified: Option<bool>)

  /** Which of the three mails was sent; the body and transport are not modelled. */
  datatype MailKind = VerifyMail | ResendMail | ResetMail

  datatype Mail = Mail(to: string, kind: MailKind)
}
