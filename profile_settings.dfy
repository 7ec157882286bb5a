/** The profile form (components/ProfileSettings.tsx): the password checks before a
    save, what is handed to `onSave`, and what the form keeps or clears afterwards. */
module ProfileSettings {
  import opened Types

  const NewPasswordsDiffer := "New passwords do not match."
  const CurrentPasswordNeeded := "Please enter your current password to set a new one."
  const ProfileUpdated := "Profile updated successfully!"
  const ProfileNotUpdated := "Failed to update profile. Please check your current password."

  datatype MessageKind = SuccessMessage | ErrorMessage
  datatype Message = Message(kind: MessageKind, text: string)

  /** `UserProfileUpdateData`; the image file is represented by its name. */
  datatype UpdateData = UpdateData(username: string, profileImageFile: Option<string>,
                                   currentPassword: Option<string>, newPassword: Option<string>)

  /** The checks `handleSave` runs before saving: the confirmation first, then the
      current password; an empty new password passes both. */
  function PasswordCheck(currentPassword: string, newPassword: string, confirmPassword: string): (r: Option<string>)
    ensures r == Some(NewPasswordsDiffer) <==> newPassword != "" && newPassword != confirmPassword
    ensures r == Some(CurrentPasswordNeeded) <==>
              newPassword != "" && newPassword == confirmPassword && currentPassword == ""
    ensures r.None? <==> newPassword == "" || (newPassword == confirmPassword && currentPassword != "")
  {
    if newPassword != "" && newPassword != confirmPassword then Some(NewPasswordsDiffer)
    else if newPassword != "" && currentPassword == "" then Some(CurrentPasswordNeeded)
    else None
  }

  /** `x || undefined` on a string. */
  function OrUndefined(s: string): (r: Option<string>)
    ensures r.None? <==> s == ""
    ensures r.Some? ==> r.value == s
  {
    if s == "" then None else Some(s)
  }

  /** `user.profileImageUrl || null`: an empty address counts as none. */
  function ImageOrNull(url: Option<string>): (r: Option<string>)
    ensures r.Some? <==> url.Some? && url.value != ""
    ensures r.Some? ==> r == url
  {
    if url.Some? && url.value != "" then url else None
  }

  /** The object handed to `onSave`: the name and file as they are, empty passwords
      left out. */
  function SaveData(username: string, file: Option<string>, currentPassword: string, newPassword: string): (r: UpdateData)
    ensures r.username == username && r.profileImageFile == file
    ensures r.currentPassword.None? <==> currentPassword == ""
    ensures r.newPassword.None? <==> newPassword == ""
    ensures r.currentPassword.Some? ==> r.currentPassword.value == currentPassword
    ensures r.newPassword.Some? ==> r.newPassword.value == newPassword
  {
    UpdateData(username, file, OrUndefined(currentPassword), OrUndefined(newPassword))
  }

  class Settings {
    var username: string
    var profileImageFile: Option<string>
    var profileImagePreview: Option<string>
    var currentPassword: string
    var newPassword: string
    var confirmPassword: string
    var isSaving: bool
    var message: Option<Message>
    /** The `onSave` calls made, in order. */
    var saves: seq<UpdateData>
    /** The number of three-second message timers started and not yet fired. */
    var pendingClears: nat

    constructor()
      ensures username == "" && profileImageFile.None? && profileImagePreview.None?
      ensures currentPassword == "" && newPassword == "" && confirmPassword == ""
      ensures !isSaving && message.None? && saves == [] && pendingClears == 0
    {
      username := "";
      profileImageFile, profileImagePreview := None, None;
      currentPassword, newPassword, confirmPassword := "", "", "";
      isSaving := false;
      message := None;
      saves := [];
      pendingClears := 0;
    }

    /** The effect on `user`: a signed-in user fills the name and the preview. */
    method UserChanged(user: Option<User>)
      modifies this`username, this`profileImagePreview
      ensures user.None? ==> username == old(username) && profileImagePreview == old(profileImagePreview)
      ensures user.Some? ==> username == user.value.username
      ensures user.Some? ==> profileImagePreview == ImageOrNull(user.value.profileImageUrl)
    {
      if user.Some? {
        username := user.value.username;
        profileImagePreview := ImageOrNull(user.value.profileImageUrl);
      }
    }

    /** `handleFileChange`: a chosen file is kept; cancelling the dialog changes
        nothing. */
    method FileChosen(file: Option<string>)
      modifies this`profileImageFile
      ensures profileImageFile == if file.Some? then file else old(profileImageFile)
    {
      if file.Some? {
        profileImageFile := file;
      }
    }

    /** The file reader's `onloadend`: the preview becomes the file's data URL. */
    method PreviewRead(dataUrl: string)
      modifies this`profileImagePreview
      ensures profileImagePreview == Some(dataUrl)
    {
      profileImagePreview := Some(dataUrl);
    }

    method SetUsername(text: string)
      modifies this`username
      ensures username == text
    {
      username := text;
    }

    method SetPasswords(current: string, next: string, confirm: string)
      modifies this`currentPassword, this`newPassword, this`confirmPassword
      ensures currentPassword == current && newPassword == next && confirmPassword == confirm
    {
      currentPassword, newPassword, confirmPassword := current, next, confirm;
    }

    /** `handleSave` up to the `await`: a failed check sets its error and stops;
        otherwise the form is marked saving and `onSave` is called. The button is
        disabled while a save is under way. */
    method SaveClick()
      requires !isSaving
      modifies this`message, this`isSaving, this`saves
      ensures var check := PasswordCheck(currentPassword, newPassword, confirmPassword);
              && (check.Some? ==> message == Some(Message(ErrorMessage, check.value)))
              && (check.Some? ==> !isSaving && saves == old(saves))
              && (check.None? ==> message.None? && isSaving)
              && (check.None? ==> saves == old(saves) + [SaveData(username, profileImageFile,
                                                                  currentPassword, newPassword)])
    {
      message := None;
      var check := PasswordCheck(currentPassword, newPassword, confirmPassword);
      if check.Some? {
        message := Some(Message(ErrorMessage, check.value));
        return;
      }
      isSaving := true;
      saves := saves + [SaveData(username, profileImageFile, currentPassword, newPassword)];
    }

    /** `handleSave` after the `await`, with what `onSave` resolved to. */
    method SaveFinished(success: bool)
      requires isSaving
      modifies this`isSaving, this`message, this`currentPassword, this`newPassword,
               this`confirmPassword, this`profileImageFile, this`pendingClears
      ensures !isSaving
      ensures success ==> message == Some(Message(SuccessMessage, ProfileUpdated))
      ensures success ==> currentPassword == "" && newPassword == "" && confirmPassword == ""
      ensures success ==> profileImageFile.None? && pendingClears == old(pendingClears) + 1
      ensures !success ==> message == Some(Message(ErrorMessage, ProfileNotUpdated))
      ensures !success ==> currentPassword == old(currentPassword) && newPassword == old(newPassword)
      ensures !success ==> confirmPassword == old(confirmPassword) && profileImageFile == old(profileImageFile)
      ensures !success ==> pendingClears == old(pendingClears)
    {
      isSaving := false;
      if success {
        message := Some(Message(SuccessMessage, ProfileUpdated));
        currentPassword, newPassword, confirmPassword := "", "", "";
        profileImageFile := None;
        pendingClears := pendingClears + 1;
      } else {
        message := Some(Message(ErrorMessage, ProfileNotUpdated));
      }
    }

    /** A three-second timer fires and clears whatever message is showing. */
    method ClearTimerFires()
      requires pendingClears > 0
      modifies this`message, this`pendingClears
      ensures message.None? && pendingClears == old(pendingClears) - 1
    {
      message := None;
      pendingClears := pendingClears - 1;
    }
  }

  /** Only the username changes: nothing about the password reaches `onSave`. */
  lemma NameOnlySave(username: string, file: Option<string>, currentPassword: string, confirmPassword: string)
    ensures PasswordCheck(currentPassword, "", confirmPassword).None?
    ensures SaveData(username, file, currentPassword, "").newPassword.None?
  {
  }

  /** A save that gets through the checks with a new password always carries the
      current one with it. */
  lemma NewPasswordCarriesCurrent(username: string, file: Option<string>,
                                  currentPassword: string, newPassword: string, confirmPassword: string)
    requires newPassword != "" && PasswordCheck(currentPassword, newPassword, confirmPassword).None?
    ensures SaveData(username, file, currentPassword, newPassword).currentPassword.Some?
    ensures SaveData(username, file, currentPassword, newPassword).newPassword == Some(confirmPassword)
  {
  }
}
