/** The login decision (app/login-tool.ts). The credentials repository, the
    hash comparer and the token signer are parameters; the model returns the
    outcome together with the calls made on them, in order. */
module LoginTool {
  import opened Common

  /** `userNotFoundOrInvalidPassword`. */
  const UserNotFoundOrInvalidPassword: string := "userNotFoundOrInvalidPassword"

  /** The payload handed to the signer: `{ sub }`. */
  datatype Payload = Payload(sub: string)

  /** A call on one of the three dependencies. */
  datatype DependencyCall =
    | GetPasswordHash(userName: string)
    | CompareHash(data: string, encrypted: string)
    | Sign(payload: Payload)

  /** Why `login` rejects: the error it throws itself, or the error of the
      comparer's rejected promise or of the throwing signer, passed on. */
  datatype LoginError<E> =
    | Rejected(message: string)
    | DependencyFailed(error: E)

  /** `login(parent, { userName, password })`: the signed token, or the
      rejection, and the calls made. The comparer's promise is awaited, so
      its outcome is the value it resolves to or the error it rejects with. */
  function Login<E>(userName: string, password: string,
                    getPasswordHash: string -> Option<string>,
                    hashComparer: (string, string) -> Result<bool, E>,
                    signer: Payload -> Result<string, E>): (Result<string, LoginError<E>>, seq<DependencyCall>)
  {
    var passwordHash := getPasswordHash(userName);
    if passwordHash.None? then
      (Thrown(Rejected(UserNotFoundOrInvalidPassword)), [GetPasswordHash(userName)])
    else
      var compared := hashComparer(password, passwordHash.value);
      var before := [GetPasswordHash(userName), CompareHash(password, passwordHash.value)];
      if compared.Thrown? then
        (Thrown(DependencyFailed(compared.error)), before)
      else if !compared.value then
        (Thrown(Rejected(UserNotFoundOrInvalidPassword)), before)
      else
        var signed := signer(Payload(userName));
        var outcome := if signed.Thrown? then Thrown(DependencyFailed(signed.error)) else Returned(signed.value);
        (outcome, before + [Sign(Payload(userName))])
  }

  /** A token comes back exactly when the user has a hash, the password
      matches it and the signer succeeds, and it is the signer's output for
      `{ sub: userName }`. Login rejects with the one constant message exactly
      when the user is unknown or the password does not match; any other
      rejection is the comparer's error or, failing that, the signer's. */
  lemma LoginDecision<E>(userName: string, password: string,
                         getPasswordHash: string -> Option<string>,
                         hashComparer: (string, string) -> Result<bool, E>,
                         signer: Payload -> Result<string, E>)
    ensures var (r, _) := Login(userName, password, getPasswordHash, hashComparer, signer);
      var hash := getPasswordHash(userName);
      var matched := hash.Some? && hashComparer(password, hash.value) == Returned(true);
      && (r.Returned? <==> matched && signer(Payload(userName)).Returned?)
      && (r.Returned? ==> r.value == signer(Payload(userName)).value)
      && (r.Thrown? && r.error.Rejected? <==>
            hash.None? || hashComparer(password, hash.value) == Returned(false))
      && (r.Thrown? && r.error.Rejected? ==> r.error.message == UserNotFoundOrInvalidPassword)
      && (r.Thrown? && r.error.DependencyFailed? ==>
            if hashComparer(password, hash.value).Thrown?
            then r.error.error == hashComparer(password, hash.value).error
            else matched && r.error.error == signer(Payload(userName)).error)
  {
  }

  /** The hash is looked up first; the comparer is called at most once, with
      the password first and the stored hash second, and never for an unknown
      user; the signer is called only right after a comparison that
      succeeded. */
  lemma {:induction false} LoginCalls<E>(userName: string, password: string,
                   getPasswordHash: string -> Option<string>,
                   hashComparer: (string, string) -> Result<bool, E>,
                   signer: Payload -> Result<string, E>)
    ensures var (_, calls) := Login(userName, password, getPasswordHash, hashComparer, signer);
      var hash := getPasswordHash(userName);
      && calls[0] == GetPasswordHash(userName)
      && (hash.None? ==> calls == [GetPasswordHash(userName)])
      && (forall i :: 0 <= i < |calls| && calls[i].CompareHash? ==>
            hash.Some? && calls[i] == CompareHash(password, hash.value))
      && (forall i, j :: 0 <= i < j < |calls| ==> !(calls[i].CompareHash? && calls[j].CompareHash?))
      && (forall i :: 0 <= i < |calls| && calls[i].Sign? ==>
            0 < i && calls[i - 1].CompareHash? && hashComparer(password, hash.value) == Returned(true))
  {
    var (_, calls) := Login(userName, password, getPasswordHash, hashComparer, signer);
    var hash := getPasswordHash(userName);
    if hash.Some? {
      assert |calls| <= 3 && calls[1] == CompareHash(password, hash.value);
      assert |calls| == 3 ==> hashComparer(password, hash.value) == Returned(true) && calls[2].Sign?;
      assert forall i :: 0 <= i < |calls| && calls[i].CompareHash? ==> i == 1;
    }
  }

  /** An unknown user and a wrong password cannot be told apart by the
      outcome. */
  lemma SameRejection<E>(unknown: string, known: string, password: string,
                         getPasswordHash: string -> Option<string>,
                         hashComparer: (string, string) -> Result<bool, E>,
                         signer: Payload -> Result<string, E>)
    requires getPasswordHash(unknown).None?
    requires getPasswordHash(known).Some?
    requires hashComparer(password, getPasswordHash(known).value) == Returned(false)
    ensures Login(unknown, password, getPasswordHash, hashComparer, signer).0 ==
      Login(known, password, getPasswordHash, hashComparer, signer).0
  {
  }
}
