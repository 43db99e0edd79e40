/** The errors the Python ledger raises, one constructor per distinct message or exception. */
module Errors {

  datatype Error =
    | NameNotAlphabetic                     // validate_name: not letters (and spaces) only
    | NameTooShort                          // validate_name: fewer than 3 characters
    | NotNumeric(field: string)             // validate_digits: not digits only
    | WrongLength(field: string, length: nat) // validate_digits: not exactly `length` digits
    | NonPositiveAmount                     // deposit: amount must be positive
    | DailyLimitExceeded(remaining: int)    // Savings withdraw: what is left of today's allowance
    | InsufficientFunds                     // Savings withdraw: amount above the balance
    | OverdraftExceeded(overdraftLimit: int) // Current withdraw: amount above balance + overdraft
    | NotANumber(text: string)              // float(text) failed
    | BelowMinimumDeposit                   // create_new_account: opening deposit under 500
    | InvalidAccountType                    // create_new_account: type choice neither "1" nor "2"
}

/** `Validator.validate_name` and `Validator.validate_digits`: the shape checks on input fields. */
module Validator {
  import opened Wrappers
  import opened Text
  import opened Errors

  /** Every character is a space or a letter, and at least one is not a space. */
  predicate LettersAndSpaces(name: string) {
    && (exists i :: 0 <= i < |name| && name[i] != ' ')
    && (forall i :: 0 <= i < |name| ==> name[i] == ' ' || IsLetter(name[i]))
  }

  /**
   A name is accepted when, spaces removed, it is letters only, and it is at least
   3 characters long counting its spaces; it is returned unchanged.
   */
  function ValidateName(name: string): (r: Result<string, Error>)
    ensures r.Success? <==> LettersAndSpaces(name) && |name| >= 3
    ensures r.Success? ==> r.value == name
    ensures r == Failure(NameNotAlphabetic) <==> !LettersAndSpaces(name)
    ensures r == Failure(NameTooShort) <==> LettersAndSpaces(name) && |name| < 3
  {
    RemoveSpacesAllLetters(name);
    RemoveSpacesNonEmpty(name);
    if !IsAlpha(RemoveSpaces(name)) then Failure(NameNotAlphabetic)
    else if |name| < 3 then Failure(NameTooShort)
    else Success(name)
  }

  /** Spaces count toward the minimum length: two letters and a space make a name. */
  lemma SpacesCountTowardLength()
    ensures ValidateName("ab ") == Success("ab ")
    ensures ValidateName("ab") == Failure(NameTooShort)
  {
    assert LettersAndSpaces("ab ") by {
      assert "ab "[0] == 'a';
    }
    assert LettersAndSpaces("ab") by {
      assert "ab"[0] == 'a';
    }
  }

  /** Python truthiness of the optional `length` argument: `None` and `0` mean "any length". */
  predicate LengthGiven(length: Option<nat>) {
    length.Some? && length.value != 0
  }

  /**
   A value is accepted when it is a non-empty run of digits and, if a length is given,
   has exactly that length; it is returned unchanged. The digit check is made first.
   */
  function ValidateDigits(value: string, field: string, length: Option<nat>): (r: Result<string, Error>)
    ensures r.Success? <==>
      && |value| > 0
      && (forall i :: 0 <= i < |value| ==> IsDigit(value[i]))
      && (LengthGiven(length) ==> |value| == length.value)
    ensures r.Success? ==> r.value == value
    ensures r.Failure? && !IsDigits(value) ==> r.error == NotNumeric(field)
    ensures r.Failure? && IsDigits(value) ==> r.error == WrongLength(field, length.value)
  {
    if !IsDigits(value) then Failure(NotNumeric(field))
    else if LengthGiven(length) && |value| != length.value then Failure(WrongLength(field, length.value))
    else Success(value)
  }
}
