/** The create-user form: its fields, the validity rule that enables the submit button,
    the contact-number input filter, the checks run before a submission, the request
    payload, and how the form reacts to the answer. */
module CreateUserForm {
  import opened Text
  import opened Wrappers

  datatype FormData = FormData(
    firstName: string, lastName: string, userName: string, contact: string,
    role: string, password: string, confirmPassword: string)

  const EmptyForm := FormData("", "", "", "", "", "", "")

  datatype FieldName = FirstName | LastName | UserName | Contact | Role | Password | ConfirmPassword

  function Get(f: FormData, name: FieldName): string {
    match name
    case FirstName => f.firstName
    case LastName => f.lastName
    case UserName => f.userName
    case Contact => f.contact
    case Role => f.role
    case Password => f.password
    case ConfirmPassword => f.confirmPassword
  }

  /** The form with one field replaced. */
  function Set(f: FormData, name: FieldName, value: string): (r: FormData)
    ensures Get(r, name) == value
    ensures forall other :: other != name ==> Get(r, other) == Get(f, other)
  {
    match name
    case FirstName => f.(firstName := value)
    case LastName => f.(lastName := value)
    case UserName => f.(userName := value)
    case Contact => f.(contact := value)
    case Role => f.(role := value)
    case Password => f.(password := value)
    case ConfirmPassword => f.(confirmPassword := value)
  }

  /** The form is valid when both names are non-blank, the trimmed user name has at least
      three characters, both passwords have at least six and agree, and a role is chosen. */
  predicate IsValid(f: FormData) {
    |Trim(f.firstName)| > 0 && |Trim(f.lastName)| > 0 && |Trim(f.userName)| >= 3
    && |f.password| >= 6 && |f.confirmPassword| >= 6 && f.password == f.confirmPassword
    && (f.role == "Admin" || f.role == "User")
  }

  /** The contact input takes the empty string or one to eleven digits. */
  predicate AcceptsContact(value: string) {
    value == "" || (|value| > 0 && IsDigits(value) && |value| <= 11)
  }

  /** The checks before a request, in order; the first that fails gives the message. */
  function PreSubmitError(f: FormData): (r: Option<string>)
    ensures r == None <==>
      f.password == f.confirmPassword && |f.userName| >= 3 && |f.password| >= 6
  {
    if f.password != f.confirmPassword then Some("Passwords do not match")
    else if |f.userName| < 3 then Some("Username must be at least 3 characters")
    else if |f.password| < 6 then Some("Password must be at least 6 characters")
    else None
  }

  /** A form the submit button accepts passes every check before the request: trimming
      never lengthens the user name. */
  lemma ValidPassesChecks(f: FormData)
    requires IsValid(f)
    ensures PreSubmitError(f) == None
  {
    assert |Trim(f.userName)| <= |f.userName|;
  }

  /** The checks are weaker than validity: three spaces pass the user-name check, and the
      names are not checked at all. */
  lemma ChecksWeakerThanValid()
    ensures var f := FormData("", "", "   ", "", "", "secret", "secret");
      PreSubmitError(f) == None && !IsValid(f)
  {
    var f := FormData("", "", "   ", "", "", "secret", "secret");
    assert Trim(f.firstName) == "";
  }

  /** The body posted to the create-user endpoint. */
  datatype Payload = Payload(
    firstName: string, lastName: string, userName: string, contact: Option<string>,
    role: string, password: string, creatorRole: string, createdBy: string)

  /** Names and user name are trimmed; a blank contact is sent as `null`. */
  function PayloadOf(f: FormData, creatorRole: string, creatorUserName: string): (p: Payload)
    ensures p.contact == None <==> IsBlank(f.contact)
    ensures p.contact.Some? ==> p.contact.value == Trim(f.contact) && p.contact.value != ""
    ensures p.firstName == Trim(f.firstName) && p.lastName == Trim(f.lastName)
    ensures p.userName == Trim(f.userName)
    ensures p.password == f.password && p.role == f.role
    ensures p.creatorRole == creatorRole && p.createdBy == creatorUserName
  {
    var contact := Trim(f.contact);
    Payload(Trim(f.firstName), Trim(f.lastName), Trim(f.userName),
            if contact == "" then None else Some(contact),
            f.role, f.password, creatorRole, creatorUserName)
  }

  /** What the endpoint answers: created (with an optional message, "" for none), refused
      (likewise), or no answer at all. */
  datatype SubmitResponse = Created(message: string) | Refused(message: string) | NetworkError

  class Form {
    var form: FormData
    var loading: bool
    var error: Option<string>
    var success: Option<string>
    /** How many times the `onSuccess` callback has been called. */
    var notified: nat
    const creatorRole: string
    const creatorUserName: string

    constructor (creatorRole: string, creatorUserName: string)
      ensures form == EmptyForm && !loading && error == None && success == None && notified == 0
      ensures this.creatorRole == creatorRole && this.creatorUserName == creatorUserName
    {
      form := EmptyForm;
      loading := false;
      error := None;
      success := None;
      notified := 0;
      this.creatorRole := creatorRole;
      this.creatorUserName := creatorUserName;
    }

    /** `updateField`: only the named field changes. */
    method UpdateField(name: FieldName, value: string)
      modifies this`form
      ensures form == Set(old(form), name, value)
    {
      form := Set(form, name, value);
    }

    /** `handleContactChange`: accepted input replaces the contact, anything else is
        ignored. */
    method HandleContactChange(value: string)
      modifies this`form
      ensures AcceptsContact(value) ==> form == Set(old(form), Contact, value)
      ensures !AcceptsContact(value) ==> form == old(form)
    {
      if value == "" || (|value| > 0 && IsDigits(value) && |value| <= 11) {
        UpdateField(Contact, value);
      }
    }

    /** The part of `handleSubmit` before the request: messages are cleared, the first
        failing check sets the error and stops, else the payload is returned with the form
        left loading. */
    method BeginSubmit() returns (payload: Option<Payload>)
      modifies this`loading, this`error, this`success
      ensures success == None && error == PreSubmitError(form)
      ensures PreSubmitError(form) == None ==> payload == Some(PayloadOf(form, creatorRole, creatorUserName))
      ensures PreSubmitError(form) != None ==> payload == None
      ensures loading <==> payload.Some?
    {
      loading := true;
      error := None;
      success := None;
      if form.password != form.confirmPassword {
        error := Some("Passwords do not match");
        loading := false;
        return None;
      }
      if |form.userName| < 3 {
        error := Some("Username must be at least 3 characters");
        loading := false;
        return None;
      }
      if |form.password| < 6 {
        error := Some("Password must be at least 6 characters");
        loading := false;
        return None;
      }
      payload := Some(PayloadOf(form, creatorRole, creatorUserName));
    }

    /** The part of `handleSubmit` after the request: success empties the form and calls
        `onSuccess`, a refusal or a network failure sets the error; loading ends either
        way. */
    method FinishSubmit(response: SubmitResponse)
      modifies this`form, this`loading, this`error, this`success, this`notified
      ensures !loading
      ensures notified == if response.Created? then old(notified) + 1 else old(notified)
      ensures response.Created? ==>
        form == EmptyForm && error == old(error) &&
        success == Some(if response.message == "" then "User created successfully!" else response.message)
      ensures response.Refused? ==>
        form == old(form) && success == old(success) &&
        error == Some(if response.message == "" then "Failed to create user" else response.message)
      ensures response.NetworkError? ==>
        form == old(form) && success == old(success) && error == Some("Network error. Please try again.")
    {
      match response {
        case Created(m) =>
          success := Some(if m == "" then "User created successfully!" else m);
          form := EmptyForm;
          notified := notified + 1;
        case Refused(m) =>
          error := Some(if m == "" then "Failed to create user" else m);
        case NetworkError =>
          error := Some("Network error. Please try again.");
      }
      loading := false;
    }
  }
}
