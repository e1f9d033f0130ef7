/**
 * The user's dashboard: loading the own profile, the edits of its fields (with the
 * numeric boxes' coercion and the skills box), and saving it, with the optional avatar
 * upload and an update payload that depends on the user type.
 */
module Dashboard {
  import opened Wrappers
  import opened Text
  import opened Backend

  const ProfessionalType: string := "professional"

  /** A row of `profiles` as the dashboard reads and edits it. */
  datatype Profile = Profile(
    id: string,
    email: string,
    userType: string,
    fullName: Option<string>,
    avatarUrl: Option<string>,
    age: Option<int>,
    bio: Option<string>,
    skills: Option<seq<string>>,
    category: Option<string>,
    experienceYears: Option<int>,
    hourlyRate: Option<real>,
    location: Option<string>,
    companyName: Option<string>,
    companyDescription: Option<string>,
    website: Option<string>,
    phone: Option<string>)

  /** The columns only a professional saves. */
  datatype ProfessionalFields = ProfessionalFields(
    age: Option<int>, bio: Option<string>, skills: Option<seq<string>>, category: Option<string>,
    experienceYears: Option<int>, hourlyRate: Option<real>, location: Option<string>)

  /** The columns every other user type saves. */
  datatype CompanyFields = CompanyFields(
    companyName: Option<string>, companyDescription: Option<string>, website: Option<string>, phone: Option<string>)

  /** `updateData`: name and avatar always, then one of the two groups. */
  datatype ProfileUpdate = ProfileUpdate(
    fullName: Option<string>,
    avatarUrl: Option<string>,
    professional: Option<ProfessionalFields>,
    company: Option<CompanyFields>)

  function UpdateOf(p: Profile, avatarUrl: Option<string>): (u: ProfileUpdate)
    ensures u.fullName == p.fullName && u.avatarUrl == avatarUrl
    ensures u.professional.Some? <==> p.userType == ProfessionalType
    ensures u.company.Some? <==> p.userType != ProfessionalType
    ensures u.professional.Some? ==>
      u.professional.value == ProfessionalFields(p.age, p.bio, p.skills, p.category, p.experienceYears, p.hourlyRate, p.location)
    ensures u.company.Some? ==>
      u.company.value == CompanyFields(p.companyName, p.companyDescription, p.website, p.phone)
  {
    if p.userType == ProfessionalType then
      ProfileUpdate(p.fullName, avatarUrl,
        Some(ProfessionalFields(p.age, p.bio, p.skills, p.category, p.experienceYears, p.hourlyRate, p.location)), None)
    else
      ProfileUpdate(p.fullName, avatarUrl, None,
        Some(CompanyFields(p.companyName, p.companyDescription, p.website, p.phone)))
  }

  /** The profile a saved update describes: its name, avatar and its group's columns. */
  predicate Describes(u: ProfileUpdate, p: Profile) {
    u.fullName == p.fullName && u.avatarUrl == p.avatarUrl
    && (u.professional.Some? ==>
          u.professional.value == ProfessionalFields(p.age, p.bio, p.skills, p.category, p.experienceYears, p.hourlyRate, p.location))
    && (u.company.Some? ==> u.company.value == CompanyFields(p.companyName, p.companyDescription, p.website, p.phone))
  }

  /** The payload agrees with the profile the page shows after saving, and never mixes the
      two groups. */
  lemma UpdateDescribesSavedProfile(p: Profile, avatarUrl: Option<string>)
    ensures Describes(UpdateOf(p, avatarUrl), p.(avatarUrl := avatarUrl))
    ensures !(UpdateOf(p, avatarUrl).professional.Some? && UpdateOf(p, avatarUrl).company.Some?)
  {
  }

  /** `<profile id>/avatar.<last '.'-piece of the file name>`. */
  function AvatarPath(profileId: string, fileName: string): string {
    profileId + "/avatar." + LastPiece(fileName, '.')
  }

  lemma AvatarPathExtension(profileId: string, stem: string, ext: string)
    requires '.' !in ext
    ensures AvatarPath(profileId, stem + "." + ext) == profileId + "/avatar." + ext
  {
    LastPieceAfterSeparator(stem, '.', ext);
    assert stem + "." + ext == stem + ['.'] + ext;
  }

  /** `avatarUrl` starts as the stored one and becomes the public URL only when a file
      was chosen and its upload succeeded; a failed upload is ignored. */
  function AvatarUrlAfterUpload(previous: Option<string>, hasFile: bool, upload: Reply, publicUrl: string): (url: Option<string>)
    ensures hasFile && upload.Ok? ==> url == Some(publicUrl)
    ensures !(hasFile && upload.Ok?) ==> url == previous
  {
    if hasFile && upload.Ok? then Some(publicUrl) else previous
  }

  /** `parseInt(text) || null` and `parseFloat(text) || null`: NaN and 0 both become null. */
  function IntOrNull(text: string, parseInt: string -> Option<int>): (n: Option<int>)
    ensures n != Some(0)
    ensures n.None? <==> parseInt(text).None? || parseInt(text) == Some(0)
    ensures n.Some? ==> n == parseInt(text)
  {
    if parseInt(text).Some? && parseInt(text).value != 0 then parseInt(text) else None
  }

  function RealOrNull(text: string, parseFloat: string -> Option<real>): (x: Option<real>)
    ensures x != Some(0.0)
    ensures x.None? <==> parseFloat(text).None? || parseFloat(text) == Some(0.0)
    ensures x.Some? ==> x == parseFloat(text)
  {
    if parseFloat(text).Some? && parseFloat(text).value != 0.0 then parseFloat(text) else None
  }

  // ---------------------------------------------------------------------------
  // the skills box

  /** The text the skills box shows for a list: `skills?.join(', ') || ''`. */
  function SkillsText(skills: Option<seq<string>>): string {
    if skills.Some? then Join(skills.value, ", ") else []
  }

  /** The box as written: every keystroke re-parses the box's new text and the box then
      shows the parsed list joined again, so the text typed is not what is shown. */
  function SkillsBoxAfterKeystrokeAsWritten(shown: string, c: char): string {
    SkillsText(Some(ParseCommaList(shown + [c])))
  }

  lemma {:induction false} SplitTrailingSeparator(s: string, sep: char)
    ensures Split(s + [sep], sep) == Split(s, sep) + [[]]
    decreases |s|
  {
    if s == [] {
      assert [] + [sep] == [sep];
      assert [sep][1..] == [];
    } else {
      var t := s + [sep];
      assert t[0] == s[0] && t[1..] == s[1..] + [sep];
      SplitTrailingSeparator(s[1..], sep);
    }
  }

  lemma {:induction false} DropTrailingEmpty(parts: seq<string>)
    ensures TrimAndDropEmpty(parts + [[]]) == TrimAndDropEmpty(parts)
    decreases |parts|
  {
    if parts == [] {
      var e: seq<string> := [];
      assert Trim([]) == [];
      assert (e + [[]])[1..] == e;
    } else {
      assert (parts + [[]])[0] == parts[0] && (parts + [[]])[1..] == parts[1..] + [[]];
      DropTrailingEmpty(parts[1..]);
    }
  }

  /** A comma typed at the end of the box disappears at once: whatever list the box
      shows, typing ',' leaves it showing the same text. */
  lemma TrailingCommaCannotBeTyped(xs: seq<string>)
    requires forall i :: 0 <= i < |xs| ==> IsListEntry(xs[i])
    ensures SkillsBoxAfterKeystrokeAsWritten(SkillsText(Some(xs)), ',') == SkillsText(Some(xs))
  {
    var shown := Join(xs, ", ");
    SplitTrailingSeparator(shown, ',');
    DropTrailingEmpty(Split(shown, ','));
    ParseJoinRoundTrip(xs);
  }

  /** The smallest case: with "web" shown, typing ',' at the end still shows "web". */
  lemma WebCommaExample()
    ensures SkillsBoxAfterKeystrokeAsWritten("web", ',') == "web"
  {
    assert IsListEntry("web") by {
      assert LeadingSpaces("web") == 0 && TrailingSpaces("web") == 0;
      assert "web"[0..][..3] == "web";
    }
    TrailingCommaCannotBeTyped(["web"]);
    assert Join(["web"], ", ") == "web";
  }

  /** A comma typed inside the text is not trailing and survives: "web,react" is shown
      as "web, react". So a further skill can only be typed by putting the comma inside
      text already in the box, or pasted. */
  lemma MidTextCommaExample()
    ensures SkillsText(Some(ParseCommaList("web,react"))) == "web, react"
  {
    ParseWebReact();
    JoinWebReact();
  }

  lemma ParseWebReact()
    ensures ParseCommaList("web,react") == ["web", "react"]
  {
    WebReactSplit();
    WebReactEntries();
    var parts: seq<string> := ["web", "react"];
    assert parts[1..] == ["react"];
    assert TrimAndDropEmpty(parts[1..]) == ["react"] by {
      assert ["react"][1..] == [];
    }
  }

  lemma JoinWebReact()
    ensures Join(["web", "react"], ", ") == "web, react"
  {
    var parts: seq<string> := ["web", "react"];
    assert parts[1..] == ["react"];
    assert Join(parts, ", ") == "web" + ", " + "react";
  }

  lemma WebReactSplit()
    ensures Split("web,react", ',') == ["web", "react"]
  {
    var a, b := "web", "react";
    assert ',' !in a by { assert forall i :: 0 <= i < |a| ==> a[i] != ','; }
    assert ',' !in b by { assert forall i :: 0 <= i < |b| ==> b[i] != ','; }
    assert a + [','] + b == "web,react";
    SplitAtSeparator(a, ',', b);
    SplitNoSeparator(b, ',');
  }

  lemma WebReactEntries()
    ensures Trim("web") == "web" && Trim("react") == "react"
  {
    assert Trimmed("web") && Trimmed("react");
    TrimmedFixpoint("web");
    TrimmedFixpoint("react");
  }

  /** The box kept as its own text: a keystroke at the end keeps everything typed so far,
      and a trailing ',' leaves the list to be saved as it was. */
  function SkillsBoxAfterKeystroke(raw: string, c: char): (r: string)
    ensures |r| == |raw| + 1 && r[..|raw|] == raw && r[|raw|] == c
    ensures c == ',' ==> ParseCommaList(r) == ParseCommaList(raw)
  {
    SplitTrailingSeparator(raw, ',');
    DropTrailingEmpty(Split(raw, ','));
    raw + [c]
  }

  /** With the corrected box a further skill can be typed at the end of a shown list:
      ',', ' ' and the new entry give text that parses to the list with the entry
      appended. The box as written drops the ',' at once (`TrailingCommaCannotBeTyped`). */
  lemma NextSkillCanBeTyped(xs: seq<string>, y: string)
    requires |xs| >= 1 && forall i :: 0 <= i < |xs| ==> IsListEntry(xs[i])
    requires IsListEntry(y)
    ensures ParseCommaList(SkillsBoxAfterKeystroke(SkillsBoxAfterKeystroke(SkillsText(Some(xs)), ','), ' ') + y) == xs + [y]
  {
    var typed := SkillsBoxAfterKeystroke(SkillsBoxAfterKeystroke(SkillsText(Some(xs)), ','), ' ') + y;
    assert typed == Join(xs, ", ") + ", " + y;
    JoinSnoc(xs, y, ", ");
    var ys := xs + [y];
    assert forall i :: 0 <= i < |ys| ==> IsListEntry(ys[i]);
    ParseJoinRoundTrip(ys);
  }

  /** The text a loaded profile puts in the box parses back to the stored skills, so
      saving without touching the box keeps them. */
  lemma LoadedSkillsRoundTrip(skills: seq<string>)
    requires forall i :: 0 <= i < |skills| ==> IsListEntry(skills[i])
    ensures ParseCommaList(SkillsText(Some(skills))) == skills
  {
    ParseJoinRoundTrip(skills);
  }

  // ---------------------------------------------------------------------------
  // the text boxes

  /** The columns the form edits as plain text. */
  datatype TextColumn = FullName | Location | Bio | CompanyName | CompanyDescription | Website | Phone

  function TextOf(p: Profile, column: TextColumn): Option<string> {
    match column
    case FullName => p.fullName
    case Location => p.location
    case Bio => p.bio
    case CompanyName => p.companyName
    case CompanyDescription => p.companyDescription
    case Website => p.website
    case Phone => p.phone
  }

  /** The profile with every text column blanked: what a text box never touches. */
  function WithoutText(p: Profile): Profile {
    p.(fullName := None, location := None, bio := None, companyName := None,
       companyDescription := None, website := None, phone := None)
  }

  /** The spread `{ ...profile, column: value }`: the column becomes the typed text and
      every other column, text or not, is kept. */
  function WithText(p: Profile, column: TextColumn, value: string): (r: Profile)
    ensures TextOf(r, column) == Some(value)
    ensures forall c :: c != column ==> TextOf(r, c) == TextOf(p, c)
    ensures WithoutText(r) == WithoutText(p)
  {
    match column
    case FullName => p.(fullName := Some(value))
    case Location => p.(location := Some(value))
    case Bio => p.(bio := Some(value))
    case CompanyName => p.(companyName := Some(value))
    case CompanyDescription => p.(companyDescription := Some(value))
    case Website => p.(website := Some(value))
    case Phone => p.(phone := Some(value))
  }

  /** Typing into a text box never changes who the profile is or its numbers. */
  lemma TextEditKeepsIdentity(p: Profile, column: TextColumn, value: string)
    ensures var r := WithText(p, column, value);
      r.id == p.id && r.email == p.email && r.userType == p.userType
      && r.age == p.age && r.experienceYears == p.experienceYears && r.hourlyRate == p.hourlyRate
      && r.skills == p.skills && r.avatarUrl == p.avatarUrl
  {
    var r := WithText(p, column, value);
    assert WithoutText(r).id == WithoutText(p).id;
  }

  datatype ProfileQuery = Loaded(profile: Profile) | LoadFailed

  datatype SaveOutcome = NoProfile | Saved | SaveFailed

  /** The page's state, with the skills box corrected: the box keeps its own text,
      `skillsText`, next to the parsed list in `profile.skills`. The page as written has
      no such field and shows `SkillsText(profile.skills)` instead
      (`SkillsBoxAfterKeystrokeAsWritten`). The form shows the professional boxes only to
      a `'professional'` profile and the company boxes only to any other, so a column's
      edit method is reachable only while its group is shown; the methods accept either
      group, and `UpdateOf` never sends the hidden one, so no saved result differs. */
  class DashboardPage {
    var loading: bool
    var saving: bool
    var profile: Option<Profile>
    var avatarFile: Option<string>
    var skillsText: string

    constructor ()
      ensures loading && !saving && profile == None && avatarFile == None && skillsText == []
    {
      loading := true;
      saving := false;
      profile := None;
      avatarFile := None;
      skillsText := [];
    }

    /** `checkUser`: nobody signed in means a redirect and no profile query; a failed
        query leaves no profile. */
    method CheckUser(session: Session, q: ProfileQuery) returns (redirect: bool)
      modifies this`loading, this`profile, this`skillsText
      ensures redirect <==> session.Anonymous?
      ensures redirect ==> loading == old(loading) && profile == old(profile) && skillsText == old(skillsText)
      ensures !redirect ==> !loading
      ensures !redirect && q.Loaded? ==> profile == Some(q.profile) && skillsText == SkillsText(q.profile.skills)
      ensures !redirect && q.LoadFailed? ==> profile == old(profile) && skillsText == old(skillsText)
    {
      if session.Anonymous? {
        return true;
      }
      redirect := false;
      if q.Loaded? {
        profile := Some(q.profile);
        skillsText := SkillsText(q.profile.skills);
      }
      loading := false;
    }

    /** `handleAvatarChange`: choosing no file keeps the earlier choice. */
    method HandleAvatarChange(fileName: Option<string>)
      modifies this`avatarFile
      ensures avatarFile == if fileName.Some? then fileName else old(avatarFile)
    {
      if fileName.Some? {
        avatarFile := fileName;
      }
    }

    /** A text box of the form: `setProfile({ ...profile, column: e.target.value })`. */
    method EditText(column: TextColumn, value: string)
      requires profile.Some?
      modifies this`profile
      ensures profile == Some(WithText(old(profile).value, column, value))
      ensures TextOf(profile.value, column) == Some(value)
    {
      profile := Some(WithText(profile.value, column, value));
    }

    method EditAge(text: string, parseInt: string -> Option<int>)
      requires profile.Some?
      modifies this`profile
      ensures profile == Some(old(profile).value.(age := IntOrNull(text, parseInt)))
    {
      profile := Some(profile.value.(age := IntOrNull(text, parseInt)));
    }

    method EditExperience(text: string, parseInt: string -> Option<int>)
      requires profile.Some?
      modifies this`profile
      ensures profile == Some(old(profile).value.(experienceYears := IntOrNull(text, parseInt)))
    {
      profile := Some(profile.value.(experienceYears := IntOrNull(text, parseInt)));
    }

    method EditRate(text: string, parseFloat: string -> Option<real>)
      requires profile.Some?
      modifies this`profile
      ensures profile == Some(old(profile).value.(hourlyRate := RealOrNull(text, parseFloat)))
    {
      profile := Some(profile.value.(hourlyRate := RealOrNull(text, parseFloat)));
    }

    /** The skills box: it shows exactly `text`, and the profile holds its parse. */
    method EditSkills(text: string)
      requires profile.Some?
      modifies this`profile, this`skillsText
      ensures skillsText == text
      ensures profile == Some(old(profile).value.(skills := Some(ParseCommaList(text))))
      ensures forall i :: 0 <= i < |profile.value.skills.value| ==> IsListEntry(profile.value.skills.value[i])
    {
      skillsText := text;
      profile := Some(profile.value.(skills := Some(ParseCommaList(text))));
    }

    /** `handleSaveProfile`. `upload` is the storage reply for a chosen file (upserted at
        `AvatarPath`), `publicUrl` its address, and `update` the reply to the update. */
    method HandleSaveProfile(upload: Reply, publicUrl: string, update: Reply,
                             avatars: Table<string>, updates: Table<ProfileUpdate>)
      returns (outcome: SaveOutcome)
      modifies this`saving, this`profile, this`avatarFile, avatars, updates
      ensures old(profile).None? ==>
        && outcome == NoProfile && profile == old(profile)
        && avatars.rows == old(avatars.rows) && updates.rows == old(updates.rows) && saving == old(saving)
      ensures old(profile).Some? ==>
        var p := old(profile).value;
        var url := AvatarUrlAfterUpload(p.avatarUrl, old(avatarFile).Some?, upload, publicUrl);
        && avatars.rows == (if old(avatarFile).Some? && upload.Ok? then old(avatars.rows) + [AvatarPath(p.id, old(avatarFile).value)] else old(avatars.rows))
        && updates.rows == (if update.Ok? then old(updates.rows) + [UpdateOf(p, url)] else old(updates.rows))
        && (outcome == Saved <==> update.Ok?)
        && (outcome == SaveFailed <==> update.Err?)
        && (update.Ok? ==> profile == Some(p.(avatarUrl := url)) && avatarFile == None)
        && (update.Err? ==> profile == old(profile) && avatarFile == old(avatarFile))
        && !saving
    {
      if profile.None? {
        return NoProfile;
      }
      saving := true;
      var p := profile.value;
      var url := AvatarUrlAfterUpload(p.avatarUrl, avatarFile.Some?, upload, publicUrl);
      if avatarFile.Some? {
        avatars.Insert(AvatarPath(p.id, avatarFile.value), upload);
      }
      updates.Insert(UpdateOf(p, url), update);
      if update.Ok? {
        outcome := Saved;
        profile := Some(p.(avatarUrl := url));
        avatarFile := None;
      } else {
        outcome := SaveFailed;
      }
      saving := false;
    }
  }
}
