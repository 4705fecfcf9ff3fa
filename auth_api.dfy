/** `AuthController.Register`: the username is built from the trimmed name
    parts, the name and then the e-mail address are checked against the
    ASP.NET Identity store, and only then is the user created. The store is
    seen through the three calls `Register` makes on it. */
module AuthApi {
  import opened Wrappers
  import opened Text
  import opened Entities
  import opened Mvc
  import Guids

  datatype RegisterDto = RegisterDto(
    firstName: string,
    middleName: Option<string>,
    lastName: Option<string>,
    email: string,
    password: string)

  /** The user record handed to `CreateAsync`. */
  datatype NewUser = NewUser(userName: string, email: string, securityStamp: string, createdAt: Instant)

  datatype IdentityError = IdentityError(code: string, description: string)

  datatype IdentityResult = IdentityResult(succeeded: bool, errors: seq<IdentityError>)

  /** `FindByNameAsync`, `FindByEmailAsync` (each reduced to whether a user
      was found) and `CreateAsync`. */
  datatype IdentityStore = IdentityStore(
    nameInUse: string -> bool,
    emailInUse: string -> bool,
    create: (NewUser, string) -> IdentityResult)

  const UsernameInUse: ModelError := ModelError("Username", "Username is already in use.")
  const EmailInUse: ModelError := ModelError("Email", "Email is already in use.")
  const CreatedMessage: string := "User created successfully!"

  /** A missing part contributes nothing; a present one its trimmed text. */
  function TrimmedPart(part: Option<string>): string
  {
    match part
    case None => ""
    case Some(s) => Trim(s)
  }

  /** The username: the trimmed first, middle and last names run together. */
  function UserName(dto: RegisterDto): string
  {
    Trim(dto.firstName) + TrimmedPart(dto.middleName) + TrimmedPart(dto.lastName)
  }

  /** The model errors a failed `CreateAsync` leaves, one per identity error
      and in the same order. */
  function ErrorsOf(errors: seq<IdentityError>): (r: seq<ModelError>)
    ensures |r| == |errors|
    ensures forall k :: 0 <= k < |errors| ==> r[k].key == errors[k].code && r[k].message == errors[k].description
  {
    seq(|errors|, k requires 0 <= k < |errors| => ModelError(errors[k].code, errors[k].description))
  }

  /** What `Register` answers and which user, if any, it hands to
      `CreateAsync`. */
  function RegisterOutcome(dto: RegisterDto, store: IdentityStore, stamp: Guids.Guid, now: Instant)
    : (ActionResult<string>, Option<NewUser>)
  {
    var name := UserName(dto);
    if store.nameInUse(name) then (ValidationProblem([UsernameInUse]), None)
    else if store.emailInUse(dto.email) then (ValidationProblem([EmailInUse]), None)
    else
      var user := NewUser(name, dto.email, Guids.ToString(stamp), now);
      var outcome := store.create(user, dto.password);
      (if outcome.succeeded then Ok(CreatedMessage) else ValidationProblem(ErrorsOf(outcome.errors)), Some(user))
  }

  /** `Register`. `stamp` is the `Guid.NewGuid()` drawn for the security
      stamp and `now` the clock reading; `submitted` is the user passed to
      `CreateAsync`, if the call got that far. */
  method Register(dto: RegisterDto, store: IdentityStore, stamp: Guids.Guid, now: Instant)
    returns (result: ActionResult<string>, submitted: Option<NewUser>)
    ensures (result, submitted) == RegisterOutcome(dto, store, stamp, now)
    ensures var name := UserName(dto);
            store.nameInUse(name) ==> result == ValidationProblem([UsernameInUse]) && submitted == None
    ensures var name := UserName(dto);
            !store.nameInUse(name) && store.emailInUse(dto.email)
            ==> result == ValidationProblem([EmailInUse]) && submitted == None
    ensures var name := UserName(dto);
            !store.nameInUse(name) && !store.emailInUse(dto.email)
            ==> submitted == Some(NewUser(name, dto.email, Guids.ToString(stamp), now))
    ensures submitted.Some? ==>
              var outcome := store.create(submitted.value, dto.password);
              (outcome.succeeded ==> result == Ok(CreatedMessage))
              && (!outcome.succeeded ==> result == ValidationProblem(ErrorsOf(outcome.errors)))
    ensures result.Ok? <==> submitted.Some? && store.create(submitted.value, dto.password).succeeded
  {
    var username := UserName(dto);
    if store.nameInUse(username) {
      return ValidationProblem([UsernameInUse]), None;
    }
    if store.emailInUse(dto.email) {
      return ValidationProblem([EmailInUse]), None;
    }
    var user := NewUser(username, dto.email, Guids.ToString(stamp), now);
    submitted := Some(user);
    var outcome := store.create(user, dto.password);
    if !outcome.succeeded {
      var modelState := AddIdentityErrors(outcome.errors);
      return ValidationProblem(modelState), submitted;
    }
    result := Ok(CreatedMessage);
  }

  /** The `foreach` of `Register` that adds each identity error to the model
      state under its code. */
  method AddIdentityErrors(errors: seq<IdentityError>) returns (modelState: seq<ModelError>)
    ensures modelState == ErrorsOf(errors)
  {
    modelState := [];
    for i := 0 to |errors|
      invariant modelState == ErrorsOf(errors[..i])
    {
      assert errors[..i + 1] == errors[..i] + [errors[i]];
      modelState := modelState + [ModelError(errors[i].code, errors[i].description)];
    }
    assert errors[..|errors|] == errors;
  }

  // ---------------------------------------------------------------------------
  // Properties of the username

  lemma ConcatKeepsNoEdgeWhiteSpace(a: string, b: string)
    requires NoEdgeWhiteSpace(a) && NoEdgeWhiteSpace(b)
    ensures NoEdgeWhiteSpace(a + b)
  {
    if a != [] && b != [] {
      assert (a + b)[0] == a[0];
      assert (a + b)[|a + b| - 1] == b[|b| - 1];
    }
  }

  /** However the parts are padded, the username neither starts nor ends
      with white space. */
  lemma UserNameHasNoEdgeWhiteSpace(dto: RegisterDto)
    ensures NoEdgeWhiteSpace(UserName(dto))
  {
    var first := Trim(dto.firstName);
    var middle := TrimmedPart(dto.middleName);
    var last := TrimmedPart(dto.lastName);
    assert NoEdgeWhiteSpace(middle) && NoEdgeWhiteSpace(last);
    ConcatKeepsNoEdgeWhiteSpace(first, middle);
    ConcatKeepsNoEdgeWhiteSpace(first + middle, last);
  }

  /** The trimmed first name is always a prefix of the username, and a blank
      or missing middle or last name adds nothing. */
  lemma UserNameStartsWithFirstName(dto: RegisterDto)
    ensures Trim(dto.firstName) <= UserName(dto)
    ensures IsNullOrWhiteSpace(dto.middleName) && IsNullOrWhiteSpace(dto.lastName)
            ==> UserName(dto) == Trim(dto.firstName)
  {
    if IsNullOrWhiteSpace(dto.middleName) && IsNullOrWhiteSpace(dto.lastName) {
      BlankPartAddsNothing(dto.middleName);
      BlankPartAddsNothing(dto.lastName);
    }
  }

  lemma BlankPartAddsNothing(part: Option<string>)
    requires IsNullOrWhiteSpace(part)
    ensures TrimmedPart(part) == []
  {
  }

  /** Two people whose names split differently between middle and last name
      ("Ali" "Can" "Su" against "Ali" "CanS" "u", say) get the same username,
      so once the first is in the store the second is refused and no user is
      created for it. */
  lemma SplitNamesCollide(first: string, m1: string, l1: string, m2: string, l2: string,
                          e1: string, e2: string, p1: string, p2: string,
                          store: IdentityStore, stamp: Guids.Guid, now: Instant)
    requires NoEdgeWhiteSpace(m1) && NoEdgeWhiteSpace(l1) && NoEdgeWhiteSpace(m2) && NoEdgeWhiteSpace(l2)
    requires m1 + l1 == m2 + l2
    ensures var a := RegisterDto(first, Some(m1), Some(l1), e1, p1);
            var b := RegisterDto(first, Some(m2), Some(l2), e2, p2);
            UserName(a) == UserName(b)
            && (store.nameInUse(UserName(a)) ==>
                  RegisterOutcome(b, store, stamp, now) == (ValidationProblem([UsernameInUse]), None))
  {
    var a := RegisterDto(first, Some(m1), Some(l1), e1, p1);
    var b := RegisterDto(first, Some(m2), Some(l2), e2, p2);
    SplitUserNamesEqual(first, m1, l1, m2, l2, a, b);
    if store.nameInUse(UserName(a)) {
      TakenNameRefused(b, store, stamp, now);
    }
  }

  lemma SplitUserNamesEqual(first: string, m1: string, l1: string, m2: string, l2: string,
                            a: RegisterDto, b: RegisterDto)
    requires NoEdgeWhiteSpace(m1) && NoEdgeWhiteSpace(l1) && NoEdgeWhiteSpace(m2) && NoEdgeWhiteSpace(l2)
    requires m1 + l1 == m2 + l2
    requires a.firstName == first && a.middleName == Some(m1) && a.lastName == Some(l1)
    requires b.firstName == first && b.middleName == Some(m2) && b.lastName == Some(l2)
    ensures UserName(a) == UserName(b)
  {
    TrimFixesTrimmed(m1);
    TrimFixesTrimmed(l1);
    TrimFixesTrimmed(m2);
    TrimFixesTrimmed(l2);
    var f := Trim(first);
    ConcatAssociates(f, m1, l1);
    ConcatAssociates(f, m2, l2);
  }

  /** A registration whose username the store already holds is refused
      before anything else is asked, and no user is created. */
  lemma TakenNameRefused(dto: RegisterDto, store: IdentityStore, stamp: Guids.Guid, now: Instant)
    requires store.nameInUse(UserName(dto))
    ensures RegisterOutcome(dto, store, stamp, now) == (ValidationProblem([UsernameInUse]), None)
  {
  }

  lemma ConcatAssociates(a: string, b: string, c: string)
    ensures a + b + c == a + (b + c)
  {
  }
}
