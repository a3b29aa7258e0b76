/** The validation helpers of the contract: addresses, string inputs, label
    syntax and normalisation, the `.ar` label reference, avatars and
    withdrawal quantities. None of them touches the state. */
module Validation {
  import opened AnsTypes
  import opened Lookup

  /** JavaScript's `length`: the number of UTF-16 code units, two for a
      character above U+FFFF (a surrogate pair) and one for any other. */
  function Utf16Length(s: string): (n: nat)
    ensures |s| <= n <= 2 * |s|
    ensures (forall i :: 0 <= i < |s| ==> s[i] as int <= 0xFFFF) ==> n == |s|
    ensures (exists i :: 0 <= i < |s| && s[i] as int > 0xFFFF) ==> n > |s|
  {
    if s == [] then 0
    else
      assert forall i :: 0 <= i < |s| - 1 ==> s[1..][i] == s[i + 1];
      (if s[0] as int > 0xFFFF then 2 else 1) + Utf16Length(s[1..])
  }

  /** The count is additive: a concatenation is as long as its parts. */
  lemma {:induction false} Utf16LengthAppend(a: string, b: string)
    ensures Utf16Length(a + b) == Utf16Length(a) + Utf16Length(b)
    decreases |a|
  {
    if a == [] {
      assert a + b == b;
    } else {
      assert (a + b)[0] == a[0];
      assert (a + b)[1..] == a[1..] + b;
      Utf16LengthAppend(a[1..], b);
    }
  }

  /** One character takes two code units above U+FFFF and one otherwise;
      with `Utf16LengthAppend` this fixes the count of every string. */
  lemma Utf16LengthSingle(c: char)
    ensures Utf16Length([c]) == if c as int > 0xFFFF then 2 else 1
  {
    assert [c][1..] == [];
  }

  /** `_validateArweaveAddress`: a string whose `length` is exactly 43. */
  function ValidateArweaveAddress(address: Value): (r: Result<string>)
    ensures r.Ok? ==> address == Str(r.value) && Utf16Length(r.value) == 43
    ensures r.Err? ==> r.error == InvalidArweaveAddress && !(address.Str? && Utf16Length(address.s) == 43)
  {
    if address.Str? && Utf16Length(address.s) == 43 then Ok(address.s) else Err(InvalidArweaveAddress)
  }

  /** `_validateStringTypeLength`: a string whose `length` lies in the
      inclusive bounds; a bound may be left out by the caller. */
  function ValidateStringTypeLength(v: Value, minLen: Option<int>, maxLen: Option<int>): (r: Result<string>)
    ensures r.Ok? <==> v.Str? && minLen.Some? && maxLen.Some? && minLen.value <= Utf16Length(v.s) <= maxLen.value
    ensures r.Ok? ==> r.value == v.s
    ensures !v.Str? ==> r == Err(InvalidPrimitiveType)
    ensures v.Str? && (minLen.None? || maxLen.None?) ==> r == Err(MissingRequiredParameter)
    ensures v.Str? && minLen.Some? && maxLen.Some? && !(minLen.value <= Utf16Length(v.s) <= maxLen.value)
            ==> r == Err(InvalidStringLength)
  {
    if !v.Str? then Err(InvalidPrimitiveType)
    else if minLen.None? || maxLen.None? then Err(MissingRequiredParameter)
    else if Utf16Length(v.s) < minLen.value || Utf16Length(v.s) > maxLen.value then Err(InvalidStringLength)
    else Ok(v.s)
  }

  /** The character codes a label may use: the digits 0-9 and the letters a-z. */
  const ALLOWED_CHAR_CODES: seq<int> :=
    [48, 49, 50, 51, 52, 53, 54, 55, 56, 57, 97, 98, 99, 100, 101, 102, 103, 104,
     105, 106, 107, 108, 109, 110, 111, 112, 113, 114, 115, 116, 117, 118, 119,
     120, 121, 122]

  predicate IsAllowedChar(c: char)
  {
    c as int in ALLOWED_CHAR_CODES
  }

  /** The code table admits exactly the ASCII digits and lower-case letters. */
  lemma AllowedCharsAreDigitsAndLowerCase(c: char)
    ensures IsAllowedChar(c) <==> ('0' <= c <= '9' || 'a' <= c <= 'z')
  {
  }

  predicate AllAllowed(s: string)
  {
    forall i :: 0 <= i < |s| ==> IsAllowedChar(s[i])
  }

  /** A well-formed label: 2 to 7 characters, each a digit or a lower-case letter. */
  predicate LabelSyntax(lbl: string)
  {
    AllAllowed(lbl) && 2 <= |lbl| <= 7
  }

  /** `toLowerCase`, restricted to ASCII: A-Z become a-z, all else is kept. */
  function AsciiLower(s: string): (r: string)
    ensures |r| == |s|
    ensures forall i :: 0 <= i < |s| ==> !('A' <= r[i] <= 'Z')
    ensures forall i :: 0 <= i < |s| && 'A' <= s[i] <= 'Z' ==> r[i] as int == s[i] as int + 32
    ensures forall i :: 0 <= i < |s| && !('A' <= s[i] <= 'Z') ==> r[i] == s[i]
  {
    seq(|s|, i requires 0 <= i < |s| => if 'A' <= s[i] <= 'Z' then (s[i] as int + 32) as char else s[i])
  }

  /** Folding twice is folding once. */
  lemma AsciiLowerIdempotent(s: string)
    ensures AsciiLower(AsciiLower(s)) == AsciiLower(s)
  {
    var l := AsciiLower(s);
    assert forall i :: 0 <= i < |l| ==> AsciiLower(l)[i] == l[i];
  }

  /** Case folding followed by NFKC normalisation, the host's function. */
  function Normalize(s: string, nfkc: string -> string): (r: string)
    ensures (forall i :: 0 <= i < |s| ==> !('A' <= s[i] <= 'Z')) ==> r == nfkc(s)
  {
    assert (forall i :: 0 <= i < |s| ==> !('A' <= s[i] <= 'Z')) ==> AsciiLower(s) == s;
    nfkc(AsciiLower(s))
  }

  /** Normalisation ignores ASCII case: a name and its lower-case form
      normalise alike, so they validate alike. */
  lemma NormalizeIgnoresCase(s: string, nfkc: string -> string)
    ensures Normalize(s, nfkc) == Normalize(AsciiLower(s), nfkc)
  {
    AsciiLowerIdempotent(s);
  }

  /** The two uses of `_validateUsername`: "read" only checks the syntax,
      claiming also demands that nobody holds the label. */
  datatype Mode = Claim | Read

  /** An account that already uses `lbl`, as its current label or as a grant. */
  predicate Claims(u: User, lbl: string)
    ensures Claims(u, lbl) <==> u.currentLabel == lbl || lbl in LabelsOf(u.ownedLabels)
  {
    GrantIndexFinds(u.ownedLabels, lbl);
    u.currentLabel == lbl || GrantIndex(u.ownedLabels, lbl) != -1
  }

  /** The `users.find` of the claim check succeeds. */
  predicate LabelTaken(users: seq<User>, lbl: string)
    ensures LabelTaken(users, lbl) <==>
      exists i :: 0 <= i < |users| && (users[i].currentLabel == lbl || lbl in LabelsOf(users[i].ownedLabels))
  {
    exists i :: 0 <= i < |users| && Claims(users[i], lbl)
  }

  /** `_validateUsername`: returns the normalised label when it is well formed
      and, in claim mode, held by nobody. */
  function ValidateUsername(users: seq<User>, username: string, mode: Mode, nfkc: string -> string): (r: Result<string>)
    ensures r.Ok? ==> r.value == Normalize(username, nfkc) && LabelSyntax(r.value)
    ensures r.Ok? && mode == Claim ==> !LabelTaken(users, r.value)
    ensures LabelSyntax(Normalize(username, nfkc)) && (mode == Claim ==> !LabelTaken(users, Normalize(username, nfkc))) ==> r.Ok?
    ensures !AllAllowed(Normalize(username, nfkc)) ==> r == Err(InvalidCharCode)
    ensures AllAllowed(Normalize(username, nfkc)) && !LabelSyntax(Normalize(username, nfkc)) ==> r == Err(InvalidStringLength)
    ensures mode == Claim && LabelSyntax(Normalize(username, nfkc)) && LabelTaken(users, Normalize(username, nfkc)) ==> r == Err(LabelAlreadyAcquired)
  {
    var normalized := Normalize(username, nfkc);
    if !AllAllowed(normalized) then Err(InvalidCharCode)
    else if |normalized| < 2 || |normalized| > 7 then Err(InvalidStringLength)
    else if mode == Claim && LabelTaken(users, normalized) then Err(LabelAlreadyAcquired)
    else Ok(normalized)
  }

  /** A name and its lower-case form validate alike. */
  lemma ValidateUsernameIgnoresCase(users: seq<User>, username: string, mode: Mode, nfkc: string -> string)
    ensures ValidateUsername(users, username, mode, nfkc) == ValidateUsername(users, AsciiLower(username), mode, nfkc)
  {
    NormalizeIgnoresCase(username, nfkc);
  }

  /** `s.endsWith(suffix)`. */
  predicate EndsWith(s: string, suffix: string)
  {
    |suffix| <= |s| && s[|s| - |suffix|..] == suffix
  }

  /** `pattern` occurs in `s` at position `j`. */
  predicate OccursAt(s: string, pattern: string, j: int)
  {
    0 <= j && j + |pattern| <= |s| && s[j..j + |pattern|] == pattern
  }

  /** `s.indexOf(pattern, from)`: the first occurrence at or after `from`, or -1. */
  function IndexOfFrom(s: string, pattern: string, from: nat): (i: int)
    requires from <= |s|
    decreases |s| - from
    ensures i == -1 || (from <= i && OccursAt(s, pattern, i))
    ensures forall j :: from <= j && (i == -1 || j < i) ==> !OccursAt(s, pattern, j)
  {
    if from + |pattern| > |s| then -1
    else if s[from..from + |pattern|] == pattern then from
    else IndexOfFrom(s, pattern, from + 1)
  }

  /** A string that ends with a pattern contains it. */
  lemma EndsWithFound(s: string, pattern: string)
    requires EndsWith(s, pattern)
    ensures IndexOfFrom(s, pattern, 0) != -1
  {
    assert OccursAt(s, pattern, |s| - |pattern|);
  }

  /** `_getLabel`: a reference `<label>.ar` resolves to the normalised label
      written before the first `.ar`. */
  function GetLabel(reference: Value, nfkc: string -> string): (r: Result<string>)
    ensures r.Ok? ==> reference.Str? && EndsWith(reference.s, ".ar")
    ensures r.Ok? ==>
      var i := IndexOfFrom(reference.s, ".ar", 0);
      && 0 <= i <= |reference.s| - 3
      && r.value == Normalize(reference.s[..i], nfkc)
      && LabelSyntax(r.value)
    ensures reference.Str? && EndsWith(reference.s, ".ar") ==>
      var i := IndexOfFrom(reference.s, ".ar", 0);
      0 <= i && (r.Ok? <==> LabelSyntax(Normalize(reference.s[..i], nfkc)))
    ensures !(reference.Str? && EndsWith(reference.s, ".ar")) ==> r == Err(InvalidLabelFormat)
    ensures r.Err? ==> r.error in {InvalidLabelFormat, InvalidCharCode, InvalidStringLength}
    ensures reference.Str? && EndsWith(reference.s, ".ar") ==>
      var i := IndexOfFrom(reference.s, ".ar", 0);
      0 <= i && !AllAllowed(Normalize(reference.s[..i], nfkc)) ==> r == Err(InvalidCharCode)
    ensures reference.Str? && EndsWith(reference.s, ".ar") ==>
      var i := IndexOfFrom(reference.s, ".ar", 0);
      0 <= i && AllAllowed(Normalize(reference.s[..i], nfkc)) && !LabelSyntax(Normalize(reference.s[..i], nfkc))
      ==> r == Err(InvalidStringLength)
  {
    if !reference.Str? || !EndsWith(reference.s, ".ar") then Err(InvalidLabelFormat)
    else
      EndsWithFound(reference.s, ".ar");
      var radical := reference.s[..IndexOfFrom(reference.s, ".ar", 0)];
      ValidateUsername([], radical, Read, nfkc)
  }

  /** `_validateAvatar`'s decision on the avatar transaction's tags: a
      Content-Type tag that starts with "image/". */
  function ValidateAvatar(tags: map<string, string>): (r: Result<()>)
    ensures r.Ok? <==> "Content-Type" in tags && "image/" <= tags["Content-Type"]
    ensures "Content-Type" !in tags ==> r == Err(MissingRequiredTag)
    ensures "Content-Type" in tags && !("image/" <= tags["Content-Type"]) ==> r == Err(InvalidAvatarType)
  {
    if "Content-Type" !in tags then Err(MissingRequiredTag)
    else if !("image/" <= tags["Content-Type"]) then Err(InvalidAvatarType)
    else Ok(())
  }

  /** The avatar a new profile records: the default for an empty string, the
      given reference when its transaction is an image, an error otherwise. */
  function ResolveAvatar(avatar: Value, tags: map<string, string>): (r: Result<string>)
    ensures r.Ok? ==> avatar.Str?
    ensures r.Ok? && avatar.s == [] ==> r.value == DEFAULT_AVATAR
    ensures r.Ok? && avatar.s != [] ==> r.value == avatar.s && ValidateAvatar(tags).Ok?
    ensures avatar == Str([]) ==> r == Ok(DEFAULT_AVATAR)
    ensures avatar.Str? && avatar.s != [] && ValidateAvatar(tags).Ok? ==> r == Ok(avatar.s)
    ensures avatar.Str? && avatar.s != [] && ValidateAvatar(tags).Err? ==> r == Err(ValidateAvatar(tags).error)
    ensures !avatar.Str? ==> r == Err(TypeError)
  {
    if !avatar.Str? then Err(TypeError)
    else if |avatar.s| == 0 then Ok(DEFAULT_AVATAR)
    else
      var _ :- ValidateAvatar(tags);
      Ok(avatar.s)
  }

  /** `Number.isInteger` on a finite number. */
  predicate IsInteger(x: real)
  {
    x.Floor as real == x
  }

  /** `_validateWithdrawQty`: an integer, at most the balance, above zero,
      checked in that order. */
  function ValidateWithdrawQty(qty: Value, balance: real): (r: Result<real>)
    ensures r.Ok? <==> qty.Num? && IsInteger(qty.n) && 0.0 < qty.n <= balance
    ensures r.Ok? ==> r.value == qty.n
    ensures !(qty.Num? && IsInteger(qty.n)) ==> r == Err(NotInteger)
    ensures qty.Num? && IsInteger(qty.n) && qty.n > balance ==> r == Err(AmountTooHigh)
    ensures qty.Num? && IsInteger(qty.n) && qty.n <= balance && qty.n <= 0.0 ==> r == Err(InvalidWithdrawalAmount)
  {
    if !qty.Num? || !IsInteger(qty.n) then Err(NotInteger)
    else if qty.n > balance then Err(AmountTooHigh)
    else if qty.n <= 0.0 then Err(InvalidWithdrawalAmount)
    else Ok(qty.n)
  }
}
