/**
 * The profile settings page: the two upload validators on the avatar field,
 * the initials, and the profile update, which writes the changed fields to
 * the user and issues an update only when something changed.
 */
module ProfileSettings {
  import opened Common
  import opened Models
  import opened ProfilePage

  // ---------------------------------------------------------------------------
  // The upload validators.
  // ---------------------------------------------------------------------------

  /**
   * An uploaded file. `extension` is what `Path.GetExtension` returns for
   * `fileName`: the text from the last dot on, or empty. `length` is in bytes.
   */
  datatype FormFile = FormFile(fileName: string, extension: string, length: int)

  datatype ValidationResult = Success | Failure(message: string)

  const Megabyte: int := 1024 * 1024
  /** The limit the avatar field is declared with. */
  const AvatarMaxFileSize: int := 5 * 1024 * 1024
  /** The extensions the avatar field is declared with. */
  const AvatarExtensions: seq<string> := [".jpg", ".jpeg", ".png", ".gif"]

  /** C#'s integer division, which truncates toward zero. */
  function TruncDiv(a: int, b: int): int
    requires b > 0
  {
    if a >= 0 then a / b else 0 - (0 - a) / b
  }

  /** `MaxFileSizeAttribute.GetErrorMessage`: the limit in whole megabytes. */
  function SizeErrorMessage(maxFileSize: int): string
  {
    "Максимальный размер файла " + IntToString(TruncDiv(maxFileSize, Megabyte)) + "MB."
  }

  /**
   * `MaxFileSizeAttribute.IsValid`. `None` stands for any value that is not
   * an uploaded file, null included.
   */
  function MaxFileSizeIsValid(maxFileSize: int, value: Option<FormFile>): ValidationResult
  {
    if value.Some? && value.value.length > maxFileSize then Failure(SizeErrorMessage(maxFileSize))
    else Success
  }

  /**
   * The size validator fails exactly on a file longer than the limit, with
   * the size message; any other value passes. For the avatar that means a file
   * of exactly 5 MB passes and one byte more fails.
   */
  lemma MaxFileSizeFailsIff(maxFileSize: int, value: Option<FormFile>)
    ensures MaxFileSizeIsValid(maxFileSize, value).Failure? <==> value.Some? && value.value.length > maxFileSize
    ensures MaxFileSizeIsValid(maxFileSize, value).Failure? ==>
              MaxFileSizeIsValid(maxFileSize, value).message == SizeErrorMessage(maxFileSize)
    ensures value.None? ==> MaxFileSizeIsValid(maxFileSize, value) == Success
    ensures MaxFileSizeIsValid(AvatarMaxFileSize, Some(FormFile("a.png", ".png", 5242880))) == Success
    ensures MaxFileSizeIsValid(AvatarMaxFileSize, Some(FormFile("a.png", ".png", 5242881))).Failure?
  {
  }

  /**
   * The reported message is the one `GetErrorMessage` builds, not the
   * `ErrorMessage` the avatar field declares: for the avatar it reads "5MB.".
   */
  lemma AvatarSizeMessage()
    ensures SizeErrorMessage(AvatarMaxFileSize) == "Максимальный размер файла 5MB."
    ensures SizeErrorMessage(AvatarMaxFileSize) != "Максимальный размер файла 5 МБ"
  {
    assert TruncDiv(AvatarMaxFileSize, Megabyte) == 5;
    assert IntToString(5) == "5";
  }

  /**
   * The message names the limit in whole megabytes, rounded toward zero:
   * limits with the same number of whole megabytes give the same message,
   * and limits with different numbers give different messages.
   */
  lemma SizeMessageNamesMegabytes(a: int, b: int)
    ensures SizeErrorMessage(a) == SizeErrorMessage(b) <==> TruncDiv(a, Megabyte) == TruncDiv(b, Megabyte)
  {
    if SizeErrorMessage(a) == SizeErrorMessage(b) {
      EmbeddedIntInjective("Максимальный размер файла ", "MB.", TruncDiv(a, Megabyte), TruncDiv(b, Megabyte));
    }
  }

  /** A limit under one megabyte is reported as 0MB. */
  lemma SmallLimitReportsZero(maxFileSize: int)
    requires 0 <= maxFileSize < Megabyte
    ensures SizeErrorMessage(maxFileSize) == "Максимальный размер файла 0MB."
  {
    assert TruncDiv(maxFileSize, Megabyte) == 0;
    assert IntToString(0) == "0";
  }

  /** `string.Join(sep, xs)`. */
  function Join(sep: string, xs: seq<string>): string
  {
    if xs == [] then "" else if |xs| == 1 then xs[0] else xs[0] + sep + Join(sep, xs[1..])
  }

  /** `AllowedExtensionsAttribute.GetErrorMessage`. */
  function ExtensionsErrorMessage(extensions: seq<string>): string
  {
    "Разрешены только файлы: " + Join(", ", extensions)
  }

  /** `AllowedExtensionsAttribute.IsValid`: the lower-cased extension must be non-empty and listed. */
  function AllowedExtensionsIsValid(extensions: seq<string>, value: Option<FormFile>): ValidationResult
  {
    if value.Some? then
      var extension := Lower(value.value.extension);
      if extension == "" || extension !in extensions then Failure(ExtensionsErrorMessage(extensions))
      else Success
    else Success
  }

  /**
   * The extension validator fails exactly on a file whose lower-cased
   * extension is empty or not listed, whatever the list holds; values that
   * are not files pass.
   */
  lemma AllowedExtensionsFailsIff(extensions: seq<string>, value: Option<FormFile>)
    ensures var r := AllowedExtensionsIsValid(extensions, value);
            && (r.Failure? <==> value.Some? && (value.value.extension == "" || Lower(value.value.extension) !in extensions))
            && (r.Failure? ==> r.message == ExtensionsErrorMessage(extensions))
  {
  }

  /**
   * For the avatar: a listed extension passes in any case, an unlisted one
   * fails, and a file without an extension fails even where the empty string
   * is listed.
   */
  lemma AvatarExtensionExamples(f: FormFile)
    ensures AllowedExtensionsIsValid(AvatarExtensions, Some(f.(extension := ".JPG"))) == Success
    ensures AllowedExtensionsIsValid(AvatarExtensions, Some(f.(extension := ".bmp"))).Failure?
    ensures AllowedExtensionsIsValid(AvatarExtensions + [""], Some(f.(extension := ""))).Failure?
  {
    assert Lower(".JPG") == ".jpg";
    assert Lower(".bmp") == ".bmp";
    assert Lower("") == "";
  }

  /** The extension message lists the four image extensions. */
  lemma AvatarExtensionsMessage()
    ensures ExtensionsErrorMessage(AvatarExtensions) == "Разрешены только файлы: .jpg, .jpeg, .png, .gif"
  {
    var xs := AvatarExtensions;
    assert xs[1..] == [".jpeg", ".png", ".gif"] && xs[2..] == [".png", ".gif"] && xs[3..] == [".gif"];
    assert Join(", ", xs[3..]) == ".gif";
    assert Join(", ", xs[2..]) == ".png" + ", " + ".gif";
    assert Join(", ", xs[1..]) == ".jpeg" + ", " + ".png" + ", " + ".gif";
    assert Join(", ", xs) == ".jpg" + ", " + ".jpeg" + ", " + ".png" + ", " + ".gif";
  }

  /** The extension check ignores case: upper-casing the extension does not change the verdict. */
  lemma AllowedExtensionsIgnoresCase(extensions: seq<string>, f: FormFile)
    ensures AllowedExtensionsIsValid(extensions, Some(f.(extension := Upper(f.extension))))
            == AllowedExtensionsIsValid(extensions, Some(f))
  {
    LowerForgetsCase(f.extension);
  }

  // ---------------------------------------------------------------------------
  // LoadAsync: the initials.
  // ---------------------------------------------------------------------------

  /** The initials of `LoadAsync`, drawn whether or not an avatar is set. */
  function SettingsInitials(firstName: Option<string>, lastName: Option<string>, userName: Option<string>): string
  {
    if !IsNullOrEmpty(firstName) && !IsNullOrEmpty(lastName) then Upper([firstName.value[0], lastName.value[0]])
    else if !IsNullOrEmpty(userName) then Upper([userName.value[0]])
    else "U"
  }

  /**
   * The settings page follows the profile page's rule: where the profile
   * page draws initials, both pages draw the same; where it draws none
   * (an avatar is set), the settings page still draws them.
   */
  lemma SettingsInitialsMatchProfile(firstName: Option<string>, lastName: Option<string>, userName: Option<string>,
                                     avatarUrl: Option<string>)
    ensures var p := ProfileInitials(firstName, lastName, userName, avatarUrl);
            && (p.Some? ==> p.value == SettingsInitials(firstName, lastName, userName))
            && (p.None? <==> !IsNullOrEmpty(avatarUrl))
            && 1 <= |SettingsInitials(firstName, lastName, userName)| <= 2
  {
    ProfileInitialsCases(firstName, lastName, userName, None);
  }

  // ---------------------------------------------------------------------------
  // OnPostAsync.
  // ---------------------------------------------------------------------------

  /** The bound form. */
  datatype ProfileInput = ProfileInput(
    firstName: Option<string>,
    lastName: Option<string>,
    phoneNumber: Option<string>,
    avatarFile: Option<FormFile>)

  /** The user fields the update may change. */
  datatype ProfileFields = ProfileFields(
    firstName: Option<string>,
    lastName: Option<string>,
    phoneNumber: Option<string>,
    avatarUrl: Option<string>)

  function FieldsOf(user: AppUser): ProfileFields
    reads user
  {
    ProfileFields(user.firstName, user.lastName, user.phoneNumber, user.avatarUrl)
  }

  datatype SettingsOutcome =
    | ToLogin        // no user id
    | SignedOut      // the user id names no user: signed out, to the login page
    | FormInvalid    // model validation failed: the page is shown again
    | PhoneRejected  // `SetPhoneNumberAsync` failed
    | UpdateFailed   // `UpdateAsync` failed
    | Updated        // "Профиль успешно обновлен"
    | NoChanges      // "Изменения не обнаружены"

  /**
   * The `[Required]` that model validation adds to a property of the
   * non-nullable type `string` when nullable reference types are on (the
   * page's `string?` and `IFormFile?` show they are): a value is present and
   * is not only white space.
   */
  predicate ImplicitlyRequired(s: Option<string>)
  {
    s.Some? && RequiredString(s.value)
  }

  /**
   * Model validation of the form: the implicit `[Required]` on the first and
   * last name, the phone attribute (its verdict is a parameter) and both
   * avatar validators.
   */
  predicate FormValid(input: ProfileInput, phoneFormatValid: bool)
  {
    && ImplicitlyRequired(input.firstName)
    && ImplicitlyRequired(input.lastName)
    && phoneFormatValid
    && MaxFileSizeIsValid(AvatarMaxFileSize, input.avatarFile) == Success
    && AllowedExtensionsIsValid(AvatarExtensions, input.avatarFile) == Success
  }

  /** A non-empty avatar file was supplied. */
  predicate HasAvatarUpload(input: ProfileInput)
  {
    input.avatarFile.Some? && input.avatarFile.value.length > 0
  }

  /** The URL a saved avatar gets, `guid` being the fresh `Guid.NewGuid()`. */
  function AvatarPath(guid: string, fileName: string): string
  {
    "/uploads/avatars/" + guid + "_" + fileName
  }

  /**
   * The change rule: first name differs, last name differs, phone differs and
   * was set, or a non-empty avatar file came with the form.
   */
  predicate HasChanges(stored: ProfileFields, input: ProfileInput, phoneAccepted: bool)
  {
    || input.firstName != stored.firstName
    || input.lastName != stored.lastName
    || (input.phoneNumber != stored.phoneNumber && phoneAccepted)
    || HasAvatarUpload(input)
  }

  datatype SettingsStep = SettingsStep(outcome: SettingsOutcome, fields: Option<ProfileFields>, updateIssued: bool)

  /**
   * `OnPostAsync`. `stored` is the user `FindByIdAsync` returns (`None`
   * when there is none); `phoneAccepted` and `updateAccepted` are whether
   * `SetPhoneNumberAsync` and `UpdateAsync` succeed. The result holds the
   * user's fields afterwards, in memory, and whether an update was issued.
   */
  function SettingsPost(userId: Option<string>, stored: Option<ProfileFields>, phoneFormatValid: bool,
                        input: ProfileInput, phoneAccepted: bool, guid: string, updateAccepted: bool): SettingsStep
  {
    if IsNullOrEmpty(userId) then SettingsStep(ToLogin, stored, false)
    else if stored.None? then SettingsStep(SignedOut, None, false)
    else if !FormValid(input, phoneFormatValid) then SettingsStep(FormInvalid, stored, false)
    else
      var f := stored.value;
      var named := f.(firstName := input.firstName, lastName := input.lastName);
      if input.phoneNumber != f.phoneNumber && !phoneAccepted then SettingsStep(PhoneRejected, Some(named), false)
      else
        var withPhone := named.(phoneNumber := input.phoneNumber);
        var saved := if HasAvatarUpload(input) then withPhone.(avatarUrl := Some(AvatarPath(guid, input.avatarFile.value.fileName)))
                     else withPhone;
        if !HasChanges(f, input, phoneAccepted) then SettingsStep(NoChanges, Some(saved), false)
        else if updateAccepted then SettingsStep(Updated, Some(saved), true)
        else SettingsStep(UpdateFailed, Some(saved), true)
  }

  /**
   * An update is issued exactly when the form gets past validation and the
   * phone step and the change rule holds. "No changes" means what it says:
   * the stored fields are kept as they were and no file came. A cleared or
   * blank name never reaches the user.
   */
  lemma UpdateIssuedIffChanges(userId: Option<string>, stored: Option<ProfileFields>, phoneFormatValid: bool,
                               input: ProfileInput, phoneAccepted: bool, guid: string, updateAccepted: bool)
    ensures var s := SettingsPost(userId, stored, phoneFormatValid, input, phoneAccepted, guid, updateAccepted);
            && (s.updateIssued <==>
                  !IsNullOrEmpty(userId) && stored.Some? && FormValid(input, phoneFormatValid)
                  && (input.phoneNumber != stored.value.phoneNumber ==> phoneAccepted)
                  && HasChanges(stored.value, input, phoneAccepted))
            && (s.outcome == NoChanges <==>
                  !IsNullOrEmpty(userId) && stored.Some? && FormValid(input, phoneFormatValid)
                  && (input.phoneNumber != stored.value.phoneNumber ==> phoneAccepted)
                  && s.fields == stored && !HasAvatarUpload(input))
            && (!ImplicitlyRequired(input.firstName) || !ImplicitlyRequired(input.lastName) ==>
                  !s.updateIssued && s.fields == stored)
  {
  }

  /**
   * A user whose fields already match the form, with no file, is never
   * updated; and nothing but the four fields of the form is written.
   */
  lemma NoUpdateWithoutChanges(userId: Option<string>, f: ProfileFields, phoneFormatValid: bool,
                               guid: string, updateAccepted: bool)
    ensures var input := ProfileInput(f.firstName, f.lastName, f.phoneNumber, None);
            var s := SettingsPost(userId, Some(f), phoneFormatValid, input, false, guid, updateAccepted);
            && !s.updateIssued
            && s.fields == Some(f)
            && (s.outcome == NoChanges || s.outcome == FormInvalid || s.outcome == ToLogin)
  {
  }

  /**
   * Only a file that passes both validators becomes the avatar: when the
   * avatar changes it is the fresh path of a file no larger than 5 MB whose
   * extension is one of the four images.
   */
  lemma SavedAvatarIsValid(userId: Option<string>, stored: Option<ProfileFields>, phoneFormatValid: bool,
                           input: ProfileInput, phoneAccepted: bool, guid: string, updateAccepted: bool)
    requires stored.Some?
    ensures var s := SettingsPost(userId, stored, phoneFormatValid, input, phoneAccepted, guid, updateAccepted);
            s.fields.Some? && s.fields.value.avatarUrl != stored.value.avatarUrl ==>
              && input.avatarFile.Some?
              && s.fields.value.avatarUrl == Some(AvatarPath(guid, input.avatarFile.value.fileName))
              && 0 < input.avatarFile.value.length <= 5242880
              && Lower(input.avatarFile.value.extension) in [".jpg", ".jpeg", ".png", ".gif"]
  {
  }

  /**
   * A rejected phone number stops before the update: the names are already
   * written to the user in memory, the phone and the avatar are not.
   */
  lemma PhoneRejectionStopsBeforeUpdate(userId: Option<string>, f: ProfileFields, phoneFormatValid: bool,
                                        input: ProfileInput, guid: string, updateAccepted: bool)
    requires !IsNullOrEmpty(userId) && FormValid(input, phoneFormatValid)
    requires input.phoneNumber != f.phoneNumber
    ensures var s := SettingsPost(userId, Some(f), phoneFormatValid, input, false, guid, updateAccepted);
            && s.outcome == PhoneRejected && !s.updateIssued
            && s.fields == Some(ProfileFields(input.firstName, input.lastName, f.phoneNumber, f.avatarUrl))
  {
  }

  /**
   * `OnPostAsync` on the loaded user: it writes the changed fields step by
   * step, raising the change flag as it goes, and issues the update when the
   * flag is set. `user` is `null` when the id names no user.
   */
  method OnPost(userId: Option<string>, user: AppUser?, phoneFormatValid: bool, input: ProfileInput,
                phoneAccepted: bool, guid: string, updateAccepted: bool)
    returns (outcome: SettingsOutcome, updateIssued: bool)
    modifies user
    ensures user != null ==> user.userName == old(user.userName)
    ensures var s := SettingsPost(userId, if user == null then None else Some(old(FieldsOf(user))),
                                  phoneFormatValid, input, phoneAccepted, guid, updateAccepted);
            && outcome == s.outcome && updateIssued == s.updateIssued
            && (user != null ==> s.fields == Some(FieldsOf(user)))
  {
    if IsNullOrEmpty(userId) {
      return ToLogin, false;
    }
    if user == null {
      return SignedOut, false;
    }
    if !FormValid(input, phoneFormatValid) {
      return FormInvalid, false;
    }
    var hasChanges := false;
    if input.firstName != user.firstName {
      user.firstName := input.firstName;
      hasChanges := true;
    }
    if input.lastName != user.lastName {
      user.lastName := input.lastName;
      hasChanges := true;
    }
    var currentPhoneNumber := user.phoneNumber;
    if input.phoneNumber != currentPhoneNumber {
      if !phoneAccepted {
        return PhoneRejected, false;
      }
      user.phoneNumber := input.phoneNumber;
      hasChanges := true;
    }
    if input.avatarFile.Some? && input.avatarFile.value.length > 0 {
      user.avatarUrl := Some(AvatarPath(guid, input.avatarFile.value.fileName));
      hasChanges := true;
    }
    if hasChanges {
      if !updateAccepted {
        return UpdateFailed, true;
      }
      return Updated, true;
    }
    return NoChanges, false;
  }
}
