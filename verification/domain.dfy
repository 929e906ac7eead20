/** The records the application passes around: user profiles, announcements, areas
    ("barangays"), errors from the external services, toasts and navigations. */
module Domain {
  import opened Wrappers

  /** `UserProfile.role`: `'resident' | 'official'`. */
  datatype Role = Resident | Official

  /** A user's profile document (`users/{uid}`). */
  datatype UserProfile = UserProfile(uid: string, email: string, role: Role, barangayId: string)

  /** `AnnouncementData`: `id` is absent until the store assigns one; `datePosted` is in ms. */
  datatype Announcement = Announcement(
    id: Option<string>,
    title: string,
    description: string,
    category: string,
    barangayId: string,
    authorId: string,
    datePosted: int)

  /** `BarangayData`: one local administrative area. */
  datatype Barangay = Barangay(id: string, name: string)

  /** An error raised by the identity provider or the document store (`error.code`, `error.message`). */
  datatype Error = Error(code: string, message: string)

  /** Colour of a toast notification. */
  datatype Color = Success | Warning | Danger

  /** A toast shown to the user. */
  datatype Toast = Toast(message: string, color: Color)

  /** `router.navigate([url], { replaceUrl })`. */
  datatype Navigation = Navigation(url: string, replaceUrl: bool)

  /** An effect a screen has on the outside world: a navigation or a toast. */
  datatype Effect = Navigate(nav: Navigation) | Notify(toast: Toast)

  /** Route an authenticated user of each role is sent to when a role check fails. */
  function RoleHome(role: Role): (url: string)
    ensures url == "/official-dashboard" <==> role == Official
    ensures url == "/home" <==> role == Resident
  {
    assert "/official-dashboard"[1] != "/home"[1];
    match role
    case Official => "/official-dashboard"
    case Resident => "/home"
  }
}
