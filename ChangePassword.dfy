/** The change-password form's own checks: each field is checked in turn,
    every check runs, a field gets at most one error, and the form is valid
    exactly when no check fired. */
module ChangePassword {

  datatype Field = CurrentPassword | Password | RepeatedPassword

  /** What the form holds when it is submitted. */
  datatype PasswordForm = PasswordForm(currentPassword: string, password: string, repeatedPassword: string)

  /** An error registered on a field: its type and the key of its message. */
  datatype FieldError = FieldError(kind: string, message: string)

  const MinPasswordLength := 9

  const CurrentPasswordRequired := FieldError("required", "features.user.changePassword.form.errors.currentPasswordRequired")
  const PasswordRequired := FieldError("required", "features.user.changePassword.form.errors.passwordRequired")
  const PasswordTooShort := FieldError("required", "features.user.changePassword.form.errors.passwordLengthRequired")
  const RepeatedPasswordRequired := FieldError("required", "features.user.changePassword.form.errors.repeatedPasswordRequired")
  const PasswordsDontMatch := FieldError("required", "features.user.changePassword.form.errors.passwordsDontMatch")

  /** validateForm. `isBlank` is the blank test of the validation helpers. */
  method ValidateForm(data: PasswordForm, isBlank: string -> bool)
    returns (valid: bool, errors: map<Field, FieldError>)
    ensures valid <==> errors == map[]
    ensures CurrentPassword in errors <==> isBlank(data.currentPassword)
    ensures CurrentPassword in errors ==> errors[CurrentPassword] == CurrentPasswordRequired
    ensures isBlank(data.password) ==> Password in errors && errors[Password] == PasswordRequired
    ensures !isBlank(data.password) && |data.password| < MinPasswordLength
            ==> Password in errors && errors[Password] == PasswordTooShort
    ensures !isBlank(data.password) && |data.password| >= MinPasswordLength ==> Password !in errors
    ensures isBlank(data.repeatedPassword) ==> RepeatedPassword in errors && errors[RepeatedPassword] == RepeatedPasswordRequired
    ensures !isBlank(data.repeatedPassword) && data.password != data.repeatedPassword
            ==> RepeatedPassword in errors && errors[RepeatedPassword] == PasswordsDontMatch
    ensures !isBlank(data.repeatedPassword) && data.password == data.repeatedPassword ==> RepeatedPassword !in errors
    ensures valid <==> (!isBlank(data.currentPassword) && !isBlank(data.password)
                        && |data.password| >= MinPasswordLength && data.repeatedPassword == data.password)
  {
    valid := true;
    errors := map[];
    if isBlank(data.currentPassword) {
      valid := false;
      errors := errors[CurrentPassword := CurrentPasswordRequired];
    }
    if isBlank(data.password) {
      valid := false;
      errors := errors[Password := PasswordRequired];
    } else if |data.password| < MinPasswordLength {
      valid := false;
      errors := errors[Password := PasswordTooShort];
    }
    if isBlank(data.repeatedPassword) {
      valid := false;
      errors := errors[RepeatedPassword := RepeatedPasswordRequired];
    } else if data.password != data.repeatedPassword {
      valid := false;
      errors := errors[RepeatedPassword := PasswordsDontMatch];
    }
    assert !valid ==> CurrentPassword in errors || Password in errors || RepeatedPassword in errors;
  }

  /** What formSubmit does: return false, or hand the data on. */
  datatype SubmitOutcome = Rejected | Submitted(data: PasswordForm)

  /** formSubmit: `onSubmit` is called with the data exactly when validation passes. */
  method FormSubmit(data: PasswordForm, isBlank: string -> bool) returns (outcome: SubmitOutcome)
    ensures outcome.Submitted? <==>
              (!isBlank(data.currentPassword) && !isBlank(data.password)
               && |data.password| >= MinPasswordLength && data.repeatedPassword == data.password)
    ensures outcome.Submitted? ==> outcome.data == data
  {
    var valid, _ := ValidateForm(data, isBlank);
    if !valid {
      return Rejected;
    }
    outcome := Submitted(data);
  }
}
