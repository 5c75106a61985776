/** Shared vocabulary of the backend: optional values, handler results with
    HTTP error statuses, user identities and roles, and the request-field
    sanitisers and validators (trim, UUID shape) the routes apply. */
module Common {

  datatype Option<+T> = None | Some(value: T)

  /** What a route handler answers: a success value, or an error reply with
      its HTTP status. Every handler in this model changes nothing on Err. */
  datatype Result<+T> = Ok(value: T) | Err(status: int)

  const BadRequest := 400
  const Unauthorized := 401
  const Forbidden := 403
  const NotFound := 404
  const Conflict := 409

  /** Primary keys and foreign keys are UUID strings. */
  type Uuid = string

  datatype Role = Salesperson | Supervisor | Ceo

  /** The authenticated user as the backend sees it (password hash excluded). */
  datatype User = User(id: Uuid, role: Role, isActive: bool)

  function Min(a: int, b: int): (m: int)
    ensures m <= a && m <= b
    ensures m == a || m == b
  {
    if a <= b then a else b
  }

  // ---------------------------------------------------------------------------
  // Request sanitisers and validators

  /** The white-space characters the trim sanitiser strips (ASCII subset). */
  predicate IsSpace(c: char) {
    c == ' ' || c == '\t' || c == '\n' || c == '\r' || c == '\U{B}' || c == '\U{C}'
  }

  /** Number of white-space characters at the start of `s`. */
  function LeadingSpaces(s: string): (k: nat)
    ensures k <= |s|
    ensures forall i :: 0 <= i < k ==> IsSpace(s[i])
    ensures k < |s| ==> !IsSpace(s[k])
  {
    if s == [] || !IsSpace(s[0]) then 0 else 1 + LeadingSpaces(s[1..])
  }

  /** Number of white-space characters at the end of `s`. */
  function TrailingSpaces(s: string): (k: nat)
    ensures k <= |s|
    ensures forall i :: |s| - k <= i < |s| ==> IsSpace(s[i])
    ensures k < |s| ==> !IsSpace(s[|s| - 1 - k])
  {
    if s == [] || !IsSpace(s[|s| - 1]) then 0 else 1 + TrailingSpaces(s[..|s| - 1])
  }

  /** Dropping a prefix that ends before a non-space character leaves the
      trailing white space as it was. */
  lemma {:induction false} TrailingSpacesOfSuffix(s: string, a: nat)
    requires a < |s| && !IsSpace(s[a])
    ensures TrailingSpaces(s[a..]) == TrailingSpaces(s)
    decreases |s|
  {
    var t := s[a..];
    if !IsSpace(s[|s| - 1]) {
      assert t[|t| - 1] == s[|s| - 1];
    } else {
      assert t[|t| - 1] == s[|s| - 1];
      assert a < |s| - 1;
      var init := s[..|s| - 1];
      assert init[a] == s[a];
      TrailingSpacesOfSuffix(init, a);
      assert t[..|t| - 1] == init[a..];
    }
  }

  /** The `trim()` sanitiser: `s` without its leading and trailing white
      space. Leading white space goes first, then trailing white space of
      what remains; the result is the middle slice of `s`. */
  function Trim(s: string): (r: string)
    ensures |r| <= |s|
    ensures r != [] ==> !IsSpace(r[0]) && !IsSpace(r[|r| - 1])
    ensures r == [] <==> forall i :: 0 <= i < |s| ==> IsSpace(s[i])
    ensures LeadingSpaces(s) < |s| ==>
              LeadingSpaces(s) <= |s| - TrailingSpaces(s)
              && r == s[LeadingSpaces(s)..|s| - TrailingSpaces(s)]
  {
    var a := LeadingSpaces(s);
    if a == |s| then []
    else
      // s[a] is not white space, so neither end of what remains is
      var rest := s[a..];
      var b := TrailingSpaces(rest);
      assert rest[0] == s[a];
      TrailingSpacesOfSuffix(s, a);
      rest[..|rest| - b]
  }

  /** `optional().trim()`: an absent field stays absent, a present one is trimmed. */
  function TrimOption(s: Option<string>): (r: Option<string>)
    ensures r.Some? <==> s.Some?
    ensures r.Some? ==> r.value == Trim(s.value)
  {
    if s.Some? then Some(Trim(s.value)) else None
  }

  /** `trim().notEmpty()`: the trimmed field has at least one character. */
  predicate NonBlank(s: string) {
    Trim(s) != []
  }

  predicate IsHexDigit(c: char) {
    ('0' <= c <= '9') || ('a' <= c <= 'f') || ('A' <= c <= 'F')
  }

  /** The `isUUID()` validator: 8-4-4-4-12 hexadecimal digits separated by
      hyphens, case-insensitive. */
  predicate IsUuid(s: string) {
    && |s| == 36
    && (forall i :: 0 <= i < 36 && (i == 8 || i == 13 || i == 18 || i == 23) ==> s[i] == '-')
    && (forall i :: 0 <= i < 36 && i != 8 && i != 13 && i != 18 && i != 23 ==> IsHexDigit(s[i]))
  }

  /** `optional().isUUID()`: an absent field passes, a present one must be a UUID. */
  predicate OptionalUuid(s: Option<string>) {
    s.None? || IsUuid(s.value)
  }
}
