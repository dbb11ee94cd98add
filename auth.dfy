/**
 * The owner allow-list of server/auth.ts.  Password hashing (bcrypt) and token signing
 * (JWT with a process secret and the clock) are foreign calls; they are passed in as
 * the functions `hash` and `issueToken`.
 */
module OwnerAuth {
  import opened Wrappers
  import opened Text

  const OwnerEmail1: string := "ervin210@icloud.com"
  const OwnerEmail2: string := "radosavlevici210@gmail.com"

  /** `IMMUTABLE_OWNER.emails`. */
  const OwnerEmails: seq<string> := [OwnerEmail1, OwnerEmail2]

  const UnauthorizedCreateMessage: string := "Unauthorized: Only owner can create accounts"
  const AccessDeniedMessage: string := "Access denied: Unauthorized email"

  /** `email.toLowerCase().trim()`. */
  function Normalize(email: string): string {
    Trim(Lower(email))
  }

  /** `owners.some(o => o.toLowerCase() === normalized)`. */
  function SomeOwnerMatches(owners: seq<string>, normalized: string): (r: bool)
    ensures r <==> exists i :: 0 <= i < |owners| && Lower(owners[i]) == normalized
  {
    if owners == [] then false
    else
      assert forall i :: 0 < i < |owners| ==> owners[i] == owners[1..][i - 1];
      Lower(owners[0]) == normalized || SomeOwnerMatches(owners[1..], normalized)
  }

  /** `isOwnerEmail(email)`. */
  predicate IsOwnerEmail(email: string) {
    SomeOwnerMatches(OwnerEmails, Normalize(email))
  }

  /** The two owner addresses are already in lower case. */
  lemma OwnerEmailsAreLower()
    ensures Lower(OwnerEmail1) == OwnerEmail1 && Lower(OwnerEmail2) == OwnerEmail2
  {
    LowerOfNoUpper(OwnerEmail1);
    LowerOfNoUpper(OwnerEmail2);
  }

  /** Both listed addresses pass the owner check as written. */
  lemma OwnerAddressesAreOwners()
    ensures IsOwnerEmail(OwnerEmail1) && IsOwnerEmail(OwnerEmail2)
  {
    assert Normalize(OwnerEmail1) == OwnerEmail1 by {
      OwnerEmailsAreLower();
      assert OwnerEmail1[0] == 'e' && OwnerEmail1[|OwnerEmail1| - 1] == 'm';
      NormalizeOfNormal(OwnerEmail1);
    }
    assert Normalize(OwnerEmail2) == OwnerEmail2 by {
      OwnerEmailsAreLower();
      assert OwnerEmail2[0] == 'r' && OwnerEmail2[|OwnerEmail2| - 1] == 'm';
      NormalizeOfNormal(OwnerEmail2);
    }
    IsOwnerEmailExact(OwnerEmail1);
    IsOwnerEmailExact(OwnerEmail2);
  }

  /** An address in lower case without surrounding white space is its own normal form. */
  lemma NormalizeOfNormal(email: string)
    requires Lower(email) == email
    requires |email| > 0 ==> !IsWhitespace(email[0]) && !IsWhitespace(email[|email| - 1])
    ensures Normalize(email) == email
  {
    TrimOfTrimmed(email);
  }

  /** `isOwnerEmail(e)` holds exactly when the lower-cased, trimmed `e` is one of the
      two owner addresses. */
  lemma IsOwnerEmailExact(email: string)
    ensures IsOwnerEmail(email) <==> Normalize(email) in {OwnerEmail1, OwnerEmail2}
  {
    OwnerEmailsAreLower();
    assert OwnerEmails[0] == OwnerEmail1 && OwnerEmails[1] == OwnerEmail2;
  }

  /** Normalising a normalised address changes nothing. */
  lemma NormalizeIdempotent(email: string)
    ensures Normalize(Normalize(email)) == Normalize(email)
  {
    var n := Normalize(email);
    LowerOfNoUpper(n);
    TrimIdempotent(Lower(email));
  }

  /** The owner check ignores letter case and surrounding white space:
      it gives the same answer on an address and on its normalised form. */
  lemma OwnerCheckNormalizes(email: string)
    ensures IsOwnerEmail(Normalize(email)) == IsOwnerEmail(email)
  {
    NormalizeIdempotent(email);
  }

  /** In particular, upper-casing the address never changes the verdict. */
  lemma OwnerCheckIgnoresCase(email: string)
    ensures IsOwnerEmail(Upper(email)) == IsOwnerEmail(email)
  {
  }

  /** `SecureUser`; times are milliseconds. */
  datatype SecureUser = SecureUser(
    email: string,
    passwordHash: string,
    isOwner: bool,
    quantumProtected: bool,
    createdAt: int,
    lastLogin: Option<int>)

  /** `createSecureUser(email, password)`: refused unless the address is an owner's;
      otherwise an owner record under the normalised address. */
  function CreateSecureUser(email: string, password: string, hash: string -> string, now: int)
    : (r: Result<SecureUser, string>)
    ensures !IsOwnerEmail(email) ==> r == Failure(UnauthorizedCreateMessage)
    ensures IsOwnerEmail(email) ==> r.Success?
    ensures r.Success? ==>
              && r.value.email == Normalize(email)
              && r.value.email in {OwnerEmail1, OwnerEmail2}
              && r.value.isOwner && r.value.quantumProtected
              && r.value.passwordHash == hash(password)
              && r.value.createdAt == now && r.value.lastLogin.None?
  {
    IsOwnerEmailExact(email);
    if !IsOwnerEmail(email) then Failure(UnauthorizedCreateMessage)
    else Success(SecureUser(Normalize(email), hash(password), true, true, now, None))
  }

  /** What `authenticateUser` resolves to. */
  datatype Session = Session(user: SecureUser, token: string)

  /** `authenticateUser(email, password)`: refused unless the address is an owner's; then
      accepted whatever the password. The user record carries the normalised address,
      while the token is issued for the address exactly as given. */
  function AuthenticateUser(email: string, password: string, hash: string -> string,
                            issueToken: string -> string, now: int)
    : (r: Result<Session, string>)
    ensures !IsOwnerEmail(email) ==> r == Failure(AccessDeniedMessage)
    ensures IsOwnerEmail(email) ==> r.Success?
    ensures r.Success? ==>
              && r.value.user.email == Normalize(email)
              && r.value.user.email in {OwnerEmail1, OwnerEmail2}
              && r.value.user.isOwner && r.value.user.quantumProtected
              && r.value.user.passwordHash == hash(password)
              && r.value.user.createdAt == now && r.value.user.lastLogin == Some(now)
              && r.value.token == issueToken(email)
  {
    IsOwnerEmailExact(email);
    if !IsOwnerEmail(email) then Failure(AccessDeniedMessage)
    else
      var user := SecureUser(Normalize(email), hash(password), true, true, now, Some(now));
      Success(Session(user, issueToken(email)))
  }

  /** An owner address written with capitals and a trailing space is accepted; the user
      record holds the normalised address but the token is issued for the raw one. */
  lemma TokenIssuedForRawAddress(hash: string -> string, issueToken: string -> string, now: int)
    ensures var raw := "Ervin210@iCloud.com ";
            var r := AuthenticateUser(raw, "any password", hash, issueToken, now);
            && r.Success?
            && r.value.user.email == OwnerEmail1
            && r.value.token == issueToken(raw)
            && r.value.user.email != raw
  {
    var raw := "Ervin210@iCloud.com ";
    assert Lower(raw) == OwnerEmail1 + " ";
    assert TrimEnd(Lower(raw)) == OwnerEmail1 by {
      assert Lower(raw)[..|Lower(raw)| - 1] == OwnerEmail1;
      TrimOfTrimmed(OwnerEmail1);
    }
    assert Normalize(raw) == OwnerEmail1;
    IsOwnerEmailExact(raw);
  }
}
