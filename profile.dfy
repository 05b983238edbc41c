/**
 * The profile page: a personal-information record of eight text fields, a list
 * of emergency contacts, an "editing" flag toggled by the Edit/Save button, and
 * avatar initials computed from a name.
 */
module ProfilePage {
  import opened Wrappers
  import opened JsStrings

  // ----- Initials -----

  const Space: char := ' '

  /** The avatar text for a name: `name.split(' ').map(n => n[0]).join('')`. */
  function Initials(name: string): string {
    JoinChars(Heads(Split(name, Space)))
  }

  /**
   * A reference definition by scanning: the characters that are not spaces and
   * come first or right after a space. `atStart` says whether the previous
   * character was a space (or there was none).
   */
  function WordStarts(s: string, atStart: bool): string {
    if s == [] then ""
    else if s[0] == Space then WordStarts(s[1..], true)
    else (if atStart then [s[0]] else "") + WordStarts(s[1..], false)
  }

  /** The pieces that are not empty, in order. */
  function NonEmpty(pieces: seq<string>): (r: seq<string>)
    ensures |r| <= |pieces|
    ensures forall p | p in r :: p != [] && p in pieces
    ensures forall p | p in pieces && p != [] :: p in r
  {
    if pieces == [] then []
    else (if pieces[0] != [] then [pieces[0]] else []) + NonEmpty(pieces[1..])
  }

  lemma {:induction false} SplitScan(s: string)
    ensures JoinChars(Heads(Split(s, Space))) == WordStarts(s, true)
    ensures JoinChars(Heads(Split(s, Space)[1..])) == WordStarts(s, false)
  {
    if s == [] {
      assert Heads([""]) == [None];
      assert JoinChars([None]) == "" + JoinChars([]);
    } else {
      SplitScan(s[1..]);
      var rest := Split(s[1..], Space);
      var pieces := Split(s, Space);
      var hs := Heads(pieces);
      assert hs[1..] == Heads(pieces[1..]);
      if s[0] == Space {
        assert pieces == [""] + rest && pieces[1..] == rest;
        assert hs[0] == None;
      } else {
        assert pieces[0] == [s[0]] + rest[0] && pieces[1..] == rest[1..];
        assert hs[0] == Some(s[0]);
        assert Split(s[1..], Space)[1..] == rest[1..];
      }
    }
  }

  /** The initials are the first letters of the space-separated words, in order. */
  lemma InitialsAreWordStarts(name: string)
    ensures Initials(name) == WordStarts(name, true)
  {
    SplitScan(name);
  }

  lemma {:induction false} JoinedHeads(pieces: seq<string>)
    ensures |JoinChars(Heads(pieces))| == |NonEmpty(pieces)|
    ensures forall i | 0 <= i < |NonEmpty(pieces)| ::
      NonEmpty(pieces)[i] != [] && JoinChars(Heads(pieces))[i] == NonEmpty(pieces)[i][0]
  {
    if pieces != [] {
      JoinedHeads(pieces[1..]);
      var hs := Heads(pieces);
      assert hs[1..] == Heads(pieces[1..]);
      assert JoinChars(hs) == (if pieces[0] != [] then [pieces[0][0]] else "") + JoinChars(hs[1..]);
    }
  }

  /**
   * The initials hold the first character of each non-empty piece of the name
   * split on spaces, in order, one per piece: an empty piece (from a leading,
   * trailing or doubled space) contributes nothing.
   */
  lemma InitialsOfPieces(name: string)
    ensures var words := NonEmpty(Split(name, Space));
      |Initials(name)| == |words| &&
      forall i | 0 <= i < |words| :: words[i] != [] && Initials(name)[i] == words[i][0]
  {
    JoinedHeads(Split(name, Space));
  }

  /** At most one initial per space plus one, and never a space among them. */
  lemma InitialsBounds(name: string)
    ensures |Initials(name)| <= Count(name, Space) + 1
    ensures Space !in Initials(name)
  {
    InitialsOfPieces(name);
    var words := NonEmpty(Split(name, Space));
    forall i | 0 <= i < |Initials(name)|
      ensures Initials(name)[i] != Space
    {
      assert words[i] in Split(name, Space);
      assert words[i][0] in words[i];
    }
  }

  /** A name of two space-free words joined by one space has their two first letters as initials. */
  lemma InitialsOfTwoWords(first: string, last: string)
    requires first != [] && last != []
    requires Space !in first && Space !in last
    ensures Initials(first + [Space] + last) == [first[0], last[0]]
  {
    var pieces := [first, last];
    assert Join(pieces, [Space]) == first + [Space] + last;
    SplitJoin(pieces, Space);
    assert Heads(pieces) == [Some(first[0]), Some(last[0])];
    assert JoinChars([Some(last[0])]) == [last[0]] + JoinChars([]);
  }

  // ----- The profile record -----

  /** The eight text fields of the personal-information form. */
  datatype ProfileData = ProfileData(
    name: string,
    email: string,
    phone: string,
    address: string,
    dateOfBirth: string,
    bloodType: string,
    allergies: string,
    medicalConditions: string)
  {
    function Get(f: Field): string {
      match f
      case Name => name
      case Email => email
      case Phone => phone
      case Address => address
      case DateOfBirth => dateOfBirth
      case BloodType => bloodType
      case Allergies => allergies
      case MedicalConditions => medicalConditions
    }

    /** `{...profile, [f]: v}`: field `f` becomes `v`, the other seven stay. */
    function With(f: Field, v: string): (r: ProfileData)
      ensures r.Get(f) == v
      ensures forall g: Field | g != f :: r.Get(g) == Get(g)
    {
      match f
      case Name => this.(name := v)
      case Email => this.(email := v)
      case Phone => this.(phone := v)
      case Address => this.(address := v)
      case DateOfBirth => this.(dateOfBirth := v)
      case BloodType => this.(bloodType := v)
      case Allergies => this.(allergies := v)
      case MedicalConditions => this.(medicalConditions := v)
    }
  }

  /** The form's input fields, one per record field. */
  datatype Field = Name | Email | Phone | Address | DateOfBirth | BloodType | Allergies | MedicalConditions

  /** Two records that agree on every field are the same record. */
  lemma RecordsAgreeOnFields(p: ProfileData, q: ProfileData)
    requires forall f: Field :: p.Get(f) == q.Get(f)
    ensures p == q
  {
    assert p.Get(Name) == q.Get(Name) && p.Get(Email) == q.Get(Email);
    assert p.Get(Phone) == q.Get(Phone) && p.Get(Address) == q.Get(Address);
    assert p.Get(DateOfBirth) == q.Get(DateOfBirth) && p.Get(BloodType) == q.Get(BloodType);
    assert p.Get(Allergies) == q.Get(Allergies) && p.Get(MedicalConditions) == q.Get(MedicalConditions);
  }

  /** Writing back the value a field already holds changes nothing. */
  lemma WithSameValue(p: ProfileData, f: Field)
    ensures p.With(f, p.Get(f)) == p
  {
    RecordsAgreeOnFields(p.With(f, p.Get(f)), p);
  }

  /** A later write to a field overrides an earlier one to the same field. */
  lemma WithTwice(p: ProfileData, f: Field, v: string, w: string)
    ensures p.With(f, v).With(f, w) == p.With(f, w)
  {
    RecordsAgreeOnFields(p.With(f, v).With(f, w), p.With(f, w));
  }

  /** An emergency contact as the page stores it. */
  datatype EmergencyContact = EmergencyContact(
    id: string,
    name: string,
    relationship: string,
    phone: string,
    email: string)

  const InitialProfile: ProfileData := ProfileData(
    "John Doe",
    "john.doe@email.com",
    "+1 (555) 123-4567",
    "123 Main Street, City, State 12345",
    "1990-01-15",
    "O+",
    "Penicillin, Shellfish",
    "None")

  const InitialContacts: seq<EmergencyContact> := [
    EmergencyContact("1", "Jane Doe", "Spouse", "+1 (555) 234-5678", "jane.doe@email.com"),
    EmergencyContact("2", "Robert Doe", "Father", "+1 (555) 345-6789", "robert.doe@email.com")
  ]

  /** The avatar text of each contact, in list order. */
  function ContactInitials(contacts: seq<EmergencyContact>): (r: seq<string>)
    ensures |r| == |contacts|
    ensures forall i | 0 <= i < |contacts| :: r[i] == Initials(contacts[i].name)
  {
    if contacts == [] then [] else [Initials(contacts[0].name)] + ContactInitials(contacts[1..])
  }

  lemma InitialsJohnDoe()
    ensures Initials("John Doe") == "JD"
  {
    assert "John Doe" == "John" + [Space] + "Doe";
    InitialsOfTwoWords("John", "Doe");
  }

  lemma InitialsJaneDoe()
    ensures Initials("Jane Doe") == "JD"
  {
    assert "Jane Doe" == "Jane" + [Space] + "Doe";
    InitialsOfTwoWords("Jane", "Doe");
  }

  lemma InitialsRobertDoe()
    ensures Initials("Robert Doe") == "RD"
  {
    assert "Robert Doe" == "Robert" + [Space] + "Doe";
    InitialsOfTwoWords("Robert", "Doe");
  }

  /** On mount the avatars read "JD" for the profile and "JD", "RD" for the contacts. */
  lemma MountedInitials()
    ensures Initials(InitialProfile.name) == "JD"
    ensures ContactInitials(InitialContacts) == ["JD", "RD"]
  {
    InitialsJohnDoe();
    InitialsJaneDoe();
    InitialsRobertDoe();
    var r := ContactInitials(InitialContacts);
    assert r[0] == Initials("Jane Doe") && r[1] == Initials("Robert Doe");
  }

  // ----- The page -----

  /** The page component's state: the editing flag, the record and the contacts. */
  class Profile {
    var isEditing: bool
    var profile: ProfileData
    var emergencyContacts: seq<EmergencyContact>

    constructor ()
      ensures !isEditing && profile == InitialProfile && emergencyContacts == InitialContacts
    {
      isEditing := false;
      profile := InitialProfile;
      emergencyContacts := InitialContacts;
    }

    /** The profile avatar's text. */
    function AvatarText(): (r: string)
      reads this
      ensures Space !in r
    {
      InitialsBounds(profile.name);
      Initials(profile.name)
    }

    /** `handleSaveProfile`: leave editing; the record and the contacts are kept. */
    method HandleSaveProfile()
      modifies this
      ensures !isEditing
      ensures profile == old(profile) && emergencyContacts == old(emergencyContacts)
    {
      isEditing := false;
    }

    /** The Edit/Save button: save when editing, start editing otherwise. */
    method OnEditButtonClick()
      modifies this
      ensures isEditing == !old(isEditing)
      ensures profile == old(profile) && emergencyContacts == old(emergencyContacts)
    {
      if isEditing {
        HandleSaveProfile();
      } else {
        isEditing := true;
      }
    }

    /**
     * A change event from the input of field `f`. The inputs are disabled while
     * not editing, so then no event reaches the handler and nothing changes.
     */
    method OnFieldChange(f: Field, v: string)
      modifies this
      ensures isEditing == old(isEditing) && emergencyContacts == old(emergencyContacts)
      ensures old(isEditing) ==> profile.Get(f) == v
      ensures old(isEditing) ==> forall g: Field | g != f :: profile.Get(g) == old(profile.Get(g))
      ensures !old(isEditing) ==> profile == old(profile)
    {
      if isEditing {
        profile := profile.With(f, v);
      }
    }

    /** `handleAddEmergencyContact`: only writes a log line; the list is kept. */
    method HandleAddEmergencyContact()
      ensures emergencyContacts == old(emergencyContacts)
      ensures isEditing == old(isEditing) && profile == old(profile)
    {
    }
  }

  /** An edit session: edit the name, save, and the avatar follows the new name. */
  method EditNameScenario()
  {
    var page := new Profile();
    page.OnFieldChange(Name, "Ignored Edit");
    assert page.profile == InitialProfile;
    page.OnEditButtonClick();
    page.OnFieldChange(Name, "Ada Lovelace");
    page.OnEditButtonClick();
    assert !page.isEditing && page.profile.Get(Name) == "Ada Lovelace";
    assert page.profile.Get(Email) == InitialProfile.email;
    assert "Ada Lovelace" == "Ada" + [Space] + "Lovelace";
    InitialsOfTwoWords("Ada", "Lovelace");
    assert page.AvatarText() == "AL";
  }
}
