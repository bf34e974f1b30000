/**
 * The profile page: the user's fields as shown, and the initials drawn in
 * place of an avatar when the user has none.
 */
module ProfilePage {
  import opened Common
  import opened Models

  /**
   * The initials of `OnGetAsync`: none when an avatar is set; otherwise the
   * first letters of first and last name, or the first letter of the user
   * name, or "U", upper-cased.
   */
  function ProfileInitials(firstName: Option<string>, lastName: Option<string>, userName: Option<string>,
                           avatarUrl: Option<string>): Option<string>
  {
    if !IsNullOrEmpty(avatarUrl) then None
    else if !IsNullOrEmpty(firstName) && !IsNullOrEmpty(lastName) then
      Some(Upper([firstName.value[0], lastName.value[0]]))
    else if !IsNullOrEmpty(userName) then Some(Upper([userName.value[0]]))
    else Some("U")
  }

  /**
   * Initials are drawn exactly when the avatar URL is null or empty. They
   * are then one or two characters with no lower-case letter: both names'
   * first letters when both names are given, else the user name's first
   * letter when it is given, else "U".
   */
  lemma ProfileInitialsCases(firstName: Option<string>, lastName: Option<string>, userName: Option<string>,
                             avatarUrl: Option<string>)
    ensures var r := ProfileInitials(firstName, lastName, userName, avatarUrl);
            && (r.Some? <==> IsNullOrEmpty(avatarUrl))
            && (r.Some? ==> 1 <= |r.value| <= 2 && forall i :: 0 <= i < |r.value| ==> !IsAsciiLower(r.value[i]))
            && (r.Some? && !IsNullOrEmpty(firstName) && !IsNullOrEmpty(lastName) ==>
                  r.value == [UpperChar(firstName.value[0]), UpperChar(lastName.value[0])])
            && (r.Some? && (IsNullOrEmpty(firstName) || IsNullOrEmpty(lastName)) && !IsNullOrEmpty(userName) ==>
                  r.value == [UpperChar(userName.value[0])])
            && (r.Some? && (IsNullOrEmpty(firstName) || IsNullOrEmpty(lastName)) && IsNullOrEmpty(userName) ==>
                  r.value == "U")
  {
    var r := ProfileInitials(firstName, lastName, userName, avatarUrl);
    if r.Some? && !IsNullOrEmpty(firstName) && !IsNullOrEmpty(lastName) {
      UpperHasNoLowerCase([firstName.value[0], lastName.value[0]]);
    } else if r.Some? && !IsNullOrEmpty(userName) {
      UpperHasNoLowerCase([userName.value[0]]);
    }
  }

  /** What `OnGetAsync` puts on the page. */
  datatype ProfileView = ProfileView(
    userName: Option<string>,
    email: Option<string>,
    phoneNumber: Option<string>,
    firstName: Option<string>,
    lastName: Option<string>,
    avatarUrl: Option<string>,
    initials: Option<string>)

  /**
   * `OnGetAsync` for a user that could be loaded (a missing user is answered
   * with Not Found): the stored fields, and the initials.
   */
  function ProfileOf(user: AppUser): ProfileView
    reads user
  {
    ProfileView(user.userName, user.email, user.phoneNumber, user.firstName, user.lastName, user.avatarUrl,
                ProfileInitials(user.firstName, user.lastName, user.userName, user.avatarUrl))
  }

  /**
   * The page shows the stored fields as they are, and initials exactly when
   * the user has no avatar.
   */
  lemma ProfileShowsStoredFields(user: AppUser)
    ensures var v := ProfileOf(user);
            && v.userName == user.userName && v.email == user.email && v.phoneNumber == user.phoneNumber
            && v.firstName == user.firstName && v.lastName == user.lastName && v.avatarUrl == user.avatarUrl
            && (v.initials.Some? <==> IsNullOrEmpty(user.avatarUrl))
            && (v.initials.Some? ==> 1 <= |v.initials.value| <= 2)
  {
    ProfileInitialsCases(user.firstName, user.lastName, user.userName, user.avatarUrl);
  }
}
