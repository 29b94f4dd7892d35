/** The admin's own profile screen, src/pages/ProfilePage.jsx: a local
    profile record edited in place, the avatar initials, and the
    password-change dialog with its own three checks. Nothing here reaches
    the server. */
module ProfilePage {
  import opened Common
  import opened Browser
  import Validators

  datatype Profile = Profile(fullName: string, email: string, phone: string, role: string, status: string,
                             joinedDate: string, location: string)

  /** The three inputs of the password dialog. */
  datatype Passwords = Passwords(current: string, newPassword: string, confirm: string)

  const NoPasswords: Passwords := Passwords("", "", "")

  datatype ProfileState = ProfileState(profile: Profile, isEditing: bool, showPasswordModal: bool,
                                       passwords: Passwords, toast: Toast)

  const InitialProfile: Profile := Profile("Admin User", "admin@fooddash.com", "+91 98765 43210", "Super Admin",
                                            "Active", "January 15, 2024", "Mumbai, Maharashtra")

  /** The state the page starts in. */
  function Initial(): (s: ProfileState)
    ensures !s.isEditing && !s.showPasswordModal && s.passwords == NoPasswords
    ensures s.profile.fullName == "Admin User"
  {
    ProfileState(InitialProfile, false, false, NoPasswords, NoToast)
  }

  // ---------------------------------------------------------------------------
  // Initials

  /** `n[0]` of every non-empty part, in order (`n[0]` of an empty part is
      `undefined`, which `join('')` writes as nothing). `n[0]` is the part's
      first code unit, so a part starting outside the Basic Multilingual
      Plane contributes only its high surrogate. */
  function Heads(parts: seq<string>): (r: seq<CodeUnit>)
    ensures |r| <= |parts|
    ensures forall i :: 0 <= i < |parts| && parts[i] != "" ==> CharUnits(parts[i][0])[0] in r
  {
    if parts == [] then []
    else
      var rest := Heads(parts[1..]);
      assert forall i :: 1 <= i < |parts| ==> parts[i] == parts[1..][i - 1];
      (if parts[0] != "" then [Utf16(parts[0])[0]] else []) + rest
  }

  /** `fullName.split(' ').map(n => n[0]).join('').toUpperCase()`, as the
      code units the avatar shows. */
  function Initials(fullName: string): seq<CodeUnit> {
    UpperUnits(Heads(Split(fullName, ' ')))
  }

  /** The same letters found by one scan: a character is an initial when it
      is not a space and opens the name or follows a space. `afterSpace`
      says whether the previous character was a space (or there was none). */
  function WordStarts(s: string, afterSpace: bool): (r: string)
    ensures |r| <= |s|
    ensures forall i :: 0 <= i < |r| ==> r[i] in s && r[i] != ' '
  {
    if s == [] then ""
    else
      var rest := WordStarts(s[1..], s[0] == ' ');
      assert forall c :: c in s[1..] ==> c in s;
      (if s[0] != ' ' && afterSpace then [s[0]] else "") + rest
  }

  /** The first code unit of each character. */
  function LeadUnits(cs: string): (r: seq<CodeUnit>)
    ensures |r| == |cs|
    ensures forall i :: 0 <= i < |cs| ==> r[i] == CharUnits(cs[i])[0]
  {
    seq(|cs|, i requires 0 <= i < |cs| => CharUnits(cs[i])[0])
  }

  lemma LeadUnitsAppend(a: string, b: string)
    ensures LeadUnits(a + b) == LeadUnits(a) + LeadUnits(b)
  {
  }

  /** Splitting on spaces and taking each part's head gives the word starts:
      over the whole name, and over every part after the first. */
  lemma {:induction false} HeadsOfSplit(s: string)
    ensures Heads(Split(s, ' ')) == LeadUnits(WordStarts(s, true))
    ensures Heads(Split(s, ' ')[1..]) == LeadUnits(WordStarts(s, false))
  {
    if s == [] {
      assert Split(s, ' ') == [""];
      HeadsCons("", []);
    } else {
      HeadsOfSplit(s[1..]);
      if s[0] == ' ' {
        SpaceStep(s);
      } else {
        LetterStep(s);
      }
    }
  }

  lemma HeadsCons(p: string, ps: seq<string>)
    ensures Heads([p] + ps) == (if p != "" then [Utf16(p)[0]] else []) + Heads(ps)
  {
    assert ([p] + ps)[1..] == ps;
  }

  /** A leading space opens an empty part and makes the next character a
      word start. */
  lemma SpaceStep(s: string)
    requires s != [] && s[0] == ' '
    requires Heads(Split(s[1..], ' ')) == LeadUnits(WordStarts(s[1..], true))
    ensures Heads(Split(s, ' ')) == LeadUnits(WordStarts(s, true))
    ensures Heads(Split(s, ' ')[1..]) == LeadUnits(WordStarts(s, false))
  {
    var rest := Split(s[1..], ' ');
    assert Split(s, ' ') == [""] + rest;
    assert ([""] + rest)[1..] == rest;
    HeadsCons("", rest);
    assert WordStarts(s, true) == "" + WordStarts(s[1..], true);
    assert WordStarts(s, false) == "" + WordStarts(s[1..], true);
  }

  /** A leading letter joins the first part, and is a word start exactly
      when it opens the name. */
  lemma LetterStep(s: string)
    requires s != [] && s[0] != ' '
    requires Heads(Split(s[1..], ' ')[1..]) == LeadUnits(WordStarts(s[1..], false))
    ensures Heads(Split(s, ' ')) == LeadUnits(WordStarts(s, true))
    ensures Heads(Split(s, ' ')[1..]) == LeadUnits(WordStarts(s, false))
  {
    var rest := Split(s[1..], ' ');
    var first := [s[0]] + rest[0];
    assert Split(s, ' ') == [first] + rest[1..];
    assert ([first] + rest[1..])[1..] == rest[1..];
    HeadsCons(first, rest[1..]);
    assert Utf16(first)[0] == CharUnits(s[0])[0];
    assert WordStarts(s, true) == [s[0]] + WordStarts(s[1..], false);
    assert WordStarts(s, false) == "" + WordStarts(s[1..], false);
    LeadUnitsAppend([s[0]], WordStarts(s[1..], false));
    LeadUnitsAppend("", WordStarts(s[1..], false));
  }

  /** The avatar shows the upper-cased first code units of the word starts
      of the name; empty parts (from doubled, leading or trailing spaces) add
      nothing. */
  lemma InitialsAreWordStarts(fullName: string)
    ensures Initials(fullName) == UpperUnits(LeadUnits(WordStarts(fullName, true)))
  {
    HeadsOfSplit(fullName);
  }

  /** For a name inside the Basic Multilingual Plane the avatar shows
      exactly the upper-cased word starts as text. */
  lemma BmpInitials(fullName: string)
    requires forall k :: 0 <= k < |fullName| ==> !IsAstral(fullName[k])
    ensures Initials(fullName) == Utf16(Upper(WordStarts(fullName, true)))
  {
    InitialsAreWordStarts(fullName);
    var w := WordStarts(fullName, true);
    forall k | 0 <= k < |w| ensures !IsAstral(w[k]) {
      assert w[k] in fullName;
    }
    BmpLeadUnits(w);
  }

  lemma BmpLeadUnits(w: string)
    requires forall k :: 0 <= k < |w| ==> !IsAstral(w[k])
    ensures UpperUnits(LeadUnits(w)) == Utf16(Upper(w))
  {
    var u := Upper(w);
    Utf16Bmp(u);
    forall k | 0 <= k < |w| ensures UpperUnits(LeadUnits(w))[k] == Utf16(u)[k] {
      UpperCharUnits(w[k]);
    }
  }

  /** A name opening outside the Basic Multilingual Plane shows half a
      character: the lone high surrogate of its first letter. */
  lemma AstralInitialIsHalf()
    ensures Initials("\U{1D49C}") == [0xD835]
  {
    SingleWordInitial("\U{1D49C}");
  }

  /** A name without spaces shows the first code unit of its first
      character, upper-cased. */
  lemma SingleWordInitial(fullName: string)
    requires fullName != [] && ' ' !in fullName
    ensures Initials(fullName) == [UpperUnit(CharUnits(fullName[0])[0])]
  {
    SplitPlain(fullName, ' ');
    assert Split(fullName, ' ')[1..] == [];
  }

  /** A first and last name separated by one space show two initials. */
  lemma TwoWordInitials(first: string, last: string)
    requires first != [] && last != [] && ' ' !in first && ' ' !in last
    ensures Initials(first + " " + last) == [UpperUnit(CharUnits(first[0])[0]), UpperUnit(CharUnits(last[0])[0])]
  {
    assert first + " " + last == first + [' '] + last;
    SplitSnoc(first, ' ', last);
    SplitPlain(first, ' ');
    var parts := Split(first + " " + last, ' ');
    assert parts == [first, last];
    assert parts == [first] + [last] && [last] == [last] + [];
    HeadsCons(last, []);
    HeadsCons(first, [last]);
  }

  // ---------------------------------------------------------------------------
  // Editing and saving

  /** The edit button toggles edit mode (its label reads "Cancel" while
      editing). */
  function ToggleEditing(s: ProfileState): (r: ProfileState)
    ensures r.isEditing == !s.isEditing && r.profile == s.profile && r.passwords == s.passwords
  {
    s.(isEditing := !s.isEditing)
  }

  datatype ProfileField = FullNameField | EmailField | PhoneField | LocationField

  /** The value an editable input shows. */
  function FieldOf(p: Profile, f: ProfileField): string {
    match f
    case FullNameField => p.fullName
    case EmailField => p.email
    case PhoneField => p.phone
    case LocationField => p.location
  }

  /** Typing into one of the editable inputs (`setProfile({...profile,
      [field]: value})`). The inputs are disabled outside edit mode, so no
      change reaches the state then. */
  function EditProfile(s: ProfileState, f: ProfileField, value: string): (r: ProfileState)
    ensures !s.isEditing ==> r == s
    ensures s.isEditing ==> FieldOf(r.profile, f) == value
    ensures forall g :: g != f ==> FieldOf(r.profile, g) == FieldOf(s.profile, g)
    ensures r.isEditing == s.isEditing && r.passwords == s.passwords
    ensures r.profile.role == s.profile.role && r.profile.status == s.profile.status
            && r.profile.joinedDate == s.profile.joinedDate
  {
    if !s.isEditing then s
    else
      match f
      case FullNameField => s.(profile := s.profile.(fullName := value))
      case EmailField => s.(profile := s.profile.(email := value))
      case PhoneField => s.(profile := s.profile.(phone := value))
      case LocationField => s.(profile := s.profile.(location := value))
  }

  /** `handleSaveProfile`: announces success and leaves edit mode; the
      profile is kept as edited and sent nowhere. */
  function SaveProfile(s: ProfileState): (r: ProfileState)
    ensures !r.isEditing && r.profile == s.profile && r.passwords == s.passwords
    ensures r.showPasswordModal == s.showPasswordModal
    ensures r.toast == SuccessToast("Profile updated successfully!")
  {
    s.(isEditing := false, toast := SuccessToast("Profile updated successfully!"))
  }

  /** Opening edit mode, typing and saving keeps the typed value, and every
      other field as it was. */
  lemma EditSessionKeepsTypedValue(s: ProfileState, f: ProfileField, value: string)
    requires !s.isEditing
    ensures var r := SaveProfile(EditProfile(ToggleEditing(s), f, value));
            && FieldOf(r.profile, f) == value
            && (forall g :: g != f ==> FieldOf(r.profile, g) == FieldOf(s.profile, g))
            && !r.isEditing && r.toast == SuccessToast("Profile updated successfully!")
  {
  }

  /** "Cancel" only leaves edit mode: what was typed stays on screen, as it
      would after "Save", only without the toast. */
  lemma CancelKeepsTypedValue(s: ProfileState, f: ProfileField, value: string)
    requires s.isEditing
    ensures ToggleEditing(EditProfile(s, f, value)).profile == SaveProfile(EditProfile(s, f, value)).profile
    ensures FieldOf(ToggleEditing(EditProfile(s, f, value)).profile, f) == value
  {
  }

  // ---------------------------------------------------------------------------
  // Password change

  /** What the dialog can object to, in the order it checks. */
  datatype PasswordIssue = MissingField | Mismatch | TooShort

  function PasswordMessage(i: PasswordIssue): string {
    match i
    case MissingField => "Please fill all password fields"
    case Mismatch => "New passwords do not match"
    case TooShort => "Password must be at least 8 characters"
  }

  /** The dialog's checks: all three inputs filled, then the new password
      confirmed, then at least eight code units long. */
  function PasswordCheck(p: Passwords): (r: Option<PasswordIssue>)
    ensures r == Some(MissingField) <==> p.current == "" || p.newPassword == "" || p.confirm == ""
    ensures r == Some(Mismatch) <==> p.current != "" && p.newPassword != "" && p.confirm != "" && p.newPassword != p.confirm
    ensures r == Some(TooShort) <==> p.current != "" && p.confirm != "" && p.newPassword == p.confirm
                                     && 0 < JsLength(p.newPassword) < 8
    ensures r.None? <==> p.current != "" && p.newPassword == p.confirm && JsLength(p.newPassword) >= 8
  {
    if p.current == "" || p.newPassword == "" || p.confirm == "" then Some(MissingField)
    else if p.newPassword != p.confirm then Some(Mismatch)
    else if JsLength(p.newPassword) < 8 then Some(TooShort)
    else None
  }

  /** Four emoji are eight code units, so they pass the length check. */
  lemma AstralPasswordIsLongEnough()
    ensures var e := "\U{1F600}\U{1F600}\U{1F600}\U{1F600}";
            |e| == 4 && PasswordCheck(Passwords("old", e, e)).None?
  {
  }

  /** `handleChangePassword`: a failed check only raises its message; a
      passing one clears the three inputs and closes the dialog. The current
      password is never compared with anything. */
  function ChangePassword(s: ProfileState): (r: ProfileState)
    ensures r.profile == s.profile && r.isEditing == s.isEditing
    ensures PasswordCheck(s.passwords).Some? ==>
              r == s.(toast := ErrorToast(PasswordMessage(PasswordCheck(s.passwords).value)))
    ensures PasswordCheck(s.passwords).None? ==>
              r.passwords == NoPasswords && !r.showPasswordModal && r.toast == SuccessToast("Password changed successfully!")
  {
    match PasswordCheck(s.passwords)
    case Some(issue) => s.(toast := ErrorToast(PasswordMessage(issue)))
    case None => s.(passwords := NoPasswords, showPasswordModal := false,
                    toast := SuccessToast("Password changed successfully!"))
  }

  /** The dialog is laxer than the sign-up rule: any password sign-up accepts
      passes it once confirmed, but a password with no upper-case letter or
      digit passes it too. */
  lemma DialogLaxerThanSignUp(p: Passwords)
    ensures p.current != "" && p.newPassword == p.confirm && Validators.StrongPassword(p.newPassword) ==> PasswordCheck(p).None?
    ensures var weak := Passwords("old", "aaaaaaaa", "aaaaaaaa");
            PasswordCheck(weak).None? && !Validators.StrongPassword(weak.newPassword)
  {
    var weak := Passwords("old", "aaaaaaaa", "aaaaaaaa");
    assert !Validators.PasswordShape(weak.newPassword) by {
      assert forall i :: 0 <= i < |weak.newPassword| ==> weak.newPassword[i] == 'a';
    }
  }

  /** After a successful change the dialog starts empty again, so pressing
      the button once more only reports the missing fields. */
  lemma ChangeTwice(s: ProfileState)
    requires PasswordCheck(s.passwords).None?
    ensures ChangePassword(ChangePassword(s)).toast == ErrorToast("Please fill all password fields")
    ensures ChangePassword(ChangePassword(s)).passwords == NoPasswords
  {
  }
}
