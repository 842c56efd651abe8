/** The records of a group-expense session and their field validators.
    Identifiers are opaque strings (the system draws them at random);
    dates and timestamps are opaque values the model never inspects. */
module Models {

  type Id = string

  /** A calendar date, carried along unvalidated. */
  datatype Date = Date(year: int, month: int, day: int)

  /** The moment a session was created, carried along uninterpreted. */
  datatype Timestamp = Timestamp(ticks: int)

  datatype Participant = Participant(id: Id, name: string)

  datatype Expense = Expense(
    id: Id,
    title: string,
    amountMinor: int,
    date: Date,
    payerId: Id,
    beneficiaryIds: seq<Id>)

  datatype Session = Session(
    id: Id,
    name: string,
    createdAt: Timestamp,
    readOnly: bool,
    participants: seq<Participant>,
    expenses: seq<Expense>)

  /** A participant's net position in minor units: positive means the group
      owes them, negative means they owe the group. */
  datatype Balance = Balance(participantId: Id, participantName: string, balanceMinor: int)

  datatype Payment = Payment(
    fromParticipantId: Id,
    fromParticipantName: string,
    toParticipantId: Id,
    toParticipantName: string,
    amountMinor: int)

  datatype Settlement = Settlement(balances: seq<Balance>, payments: seq<Payment>)

  /** The reasons a field validator rejects its input. */
  datatype FieldError =
    | BlankParticipantName
    | BlankExpenseTitle
    | NonPositiveAmount
    | NoBeneficiaries
    | BlankSessionName

  /** A record, or every field error found while building it, in field order. */
  datatype Result<T> = Ok(value: T) | Err(errors: seq<FieldError>)

  /** Python's `str.isspace` for one character: the ASCII controls TAB to CR
      and FS to US, the space, NEL, NO-BREAK SPACE and the Unicode space
      separators, line and paragraph separators. */
  predicate IsSpace(c: char)
  {
    var k := c as int;
    (9 <= k <= 13) || (28 <= k <= 32) || k == 0x85 || k == 0xA0 || k == 0x1680
    || (0x2000 <= k <= 0x200A) || k == 0x2028 || k == 0x2029 || k == 0x202F
    || k == 0x205F || k == 0x3000
  }

  /** Space, tab, newline and carriage return are whitespace; ASCII letters
      and digits never are. */
  lemma IsSpaceClasses(c: char)
    ensures c == ' ' || c == '\t' || c == '\n' || c == '\r' ==> IsSpace(c)
    ensures '0' <= c <= '9' || 'A' <= c <= 'Z' || 'a' <= c <= 'z' ==> !IsSpace(c)
  {
  }

  /** Nothing but whitespace (and possibly nothing at all). */
  predicate Blank(s: string)
  {
    forall k :: 0 <= k < |s| ==> IsSpace(s[k])
  }

  /** `s` with its leading whitespace removed. */
  function TrimStart(s: string): (r: string)
    ensures |r| <= |s| && r == s[|s| - |r|..]
    ensures forall k :: 0 <= k < |s| - |r| ==> IsSpace(s[k])
    ensures r == [] || !IsSpace(r[0])
  {
    if s != [] && IsSpace(s[0]) then
      var r := TrimStart(s[1..]);
      assert s[1..][|s| - 1 - |r|..] == s[|s| - |r|..];
      r
    else s
  }

  /** `s` with its trailing whitespace removed. */
  function TrimEnd(s: string): (r: string)
    ensures |r| <= |s| && r == s[..|r|]
    ensures forall k :: |r| <= k < |s| ==> IsSpace(s[k])
    ensures r == [] || !IsSpace(r[|r| - 1])
  {
    if s != [] && IsSpace(s[|s| - 1]) then
      var r := TrimEnd(s[..|s| - 1]);
      assert s[..|s| - 1][..|r|] == s[..|r|];
      r
    else s
  }

  /** Python's `str.strip()`: the part of `s` between its leading and its
      trailing whitespace (see `StripBounds`). */
  function Strip(s: string): (r: string)
    ensures r == [] <==> Blank(s)
    ensures r != [] ==> !IsSpace(r[0]) && !IsSpace(r[|r| - 1])
  {
    var t := TrimStart(s);
    var r := TrimEnd(t);
    assert r != [] ==> r[0] == t[0];
    assert t != [] ==> s[|s| - |t|] == t[0] && !IsSpace(s[|s| - |t|]);
    assert t != [] ==> r != [];
    r
  }

  /** The stripped string is the slice `s[i..i + |Strip(s)|]`, and
      everything outside that slice is whitespace. */
  lemma StripBounds(s: string) returns (i: nat)
    ensures i + |Strip(s)| <= |s| && Strip(s) == s[i..i + |Strip(s)|]
    ensures forall k :: 0 <= k < i ==> IsSpace(s[k])
    ensures forall k :: i + |Strip(s)| <= k < |s| ==> IsSpace(s[k])
  {
    var t := TrimStart(s);
    var r := TrimEnd(t);
    assert Strip(s) == r;
    i := |s| - |t|;
    assert t == s[i..] && r == t[..|r|];
    PrefixOfSuffix(s, i, r);
  }

  /** A prefix `r` of the suffix `s[i..]`, followed there by whitespace only,
      is the slice `s[i..i + |r|]`, and what follows it in `s` is whitespace. */
  lemma PrefixOfSuffix(s: string, i: nat, r: string)
    requires i <= |s| && |r| <= |s| - i && r == s[i..][..|r|]
    requires forall k :: |r| <= k < |s| - i ==> IsSpace(s[i..][k])
    ensures r == s[i..i + |r|]
    ensures forall k :: i + |r| <= k < |s| ==> IsSpace(s[k])
  {
    assert s[i..][..|r|] == s[i..i + |r|];
    forall k | i + |r| <= k < |s| ensures IsSpace(s[k]) {
      assert s[k] == s[i..][k - i];
    }
  }

  /** Stripping a string that has no surrounding whitespace changes nothing;
      in particular stripping twice is stripping once. */
  lemma StripIdempotent(s: string)
    ensures Strip(Strip(s)) == Strip(s)
  {
    var r := Strip(s);
    if r != [] {
      assert TrimStart(r) == r;
      assert TrimEnd(r) == r;
    }
  }

  /** The shared rule of the three name fields: a name that is empty or all
      whitespace is rejected with `err`; otherwise it is kept stripped. */
  function ValidateName(v: string, err: FieldError): (r: Result<string>)
    ensures r.Ok? <==> exists k :: 0 <= k < |v| && !IsSpace(v[k])
    ensures r.Err? ==> r.errors == [err]
    ensures r.Ok? ==> r.value == Strip(v) && r.value != []
  {
    if v == [] || Strip(v) == [] then Err([err]) else Ok(Strip(v))
  }

  /** Validation is idempotent: an accepted name validates to itself. */
  lemma {:induction false} ValidateNameIdempotent(v: string, err: FieldError)
    requires ValidateName(v, err).Ok?
    ensures ValidateName(ValidateName(v, err).value, err) == ValidateName(v, err)
  {
    StripIdempotent(v);
  }

  /** The amount validator keeps a positive amount unchanged. */
  function ValidateAmount(v: int): (r: Result<int>)
    ensures r.Ok? <==> v > 0
    ensures r.Ok? ==> r.value == v
    ensures r.Err? ==> r.errors == [NonPositiveAmount]
  {
    if v <= 0 then Err([NonPositiveAmount]) else Ok(v)
  }

  /** The beneficiary validator keeps a non-empty list unchanged, duplicates
      included. */
  function ValidateBeneficiaries(v: seq<Id>): (r: Result<seq<Id>>)
    ensures r.Ok? <==> v != []
    ensures r.Ok? ==> r.value == v
    ensures r.Err? ==> r.errors == [NoBeneficiaries]
  {
    if v == [] then Err([NoBeneficiaries]) else Ok(v)
  }

  function ErrorsOf<T>(r: Result<T>): seq<FieldError>
  {
    if r.Err? then r.errors else []
  }

  /** Building a participant runs the name validator; `id` is the freshly
      drawn identifier. */
  function NewParticipant(id: Id, name: string): (r: Result<Participant>)
    ensures r.Ok? <==> !Blank(name)
    ensures r.Ok? ==> r.value.id == id && r.value.name == Strip(name) && r.value.name != []
    ensures r.Err? ==> r.errors == [BlankParticipantName]
  {
    match ValidateName(name, BlankParticipantName)
    case Ok(n) => Ok(Participant(id, n))
    case Err(e) => Err(e)
  }

  /** Building an expense runs the title, amount and beneficiary validators
      and reports every failure, in the order the fields are declared. */
  function NewExpense(id: Id, title: string, amountMinor: int, date: Date,
                      payerId: Id, beneficiaryIds: seq<Id>): (r: Result<Expense>)
    ensures r.Ok? <==> !Blank(title) && amountMinor > 0 && beneficiaryIds != []
    ensures r.Ok? ==> r.value == Expense(id, Strip(title), amountMinor, date, payerId, beneficiaryIds)
    ensures r.Err? ==>
      r.errors == (if Blank(title) then [BlankExpenseTitle] else [])
                + (if amountMinor <= 0 then [NonPositiveAmount] else [])
                + (if beneficiaryIds == [] then [NoBeneficiaries] else [])
  {
    var t := ValidateName(title, BlankExpenseTitle);
    var a := ValidateAmount(amountMinor);
    var b := ValidateBeneficiaries(beneficiaryIds);
    if t.Ok? && a.Ok? && b.Ok? then
      Ok(Expense(id, t.value, a.value, date, payerId, b.value))
    else
      Err(ErrorsOf(t) + ErrorsOf(a) + ErrorsOf(b))
  }

  /** A new session: the name validator runs, the session is writable and
      has no participants and no expenses yet. */
  function NewSession(id: Id, name: string, createdAt: Timestamp): (r: Result<Session>)
    ensures r.Ok? <==> !Blank(name)
    ensures r.Ok? ==> r.value.name == Strip(name) && r.value.name != []
    ensures r.Ok? ==> !r.value.readOnly && r.value.participants == [] && r.value.expenses == []
    ensures r.Ok? ==> r.value.id == id && r.value.createdAt == createdAt
    ensures r.Err? ==> r.errors == [BlankSessionName]
  {
    match ValidateName(name, BlankSessionName)
    case Ok(n) => Ok(Session(id, n, createdAt, false, [], []))
    case Err(e) => Err(e)
  }
}
