/**
 * The employee card: the avatar's initials and colour, the subtitle, the
 * skill badges and the "Active" badge.
 */
module EmployeeCard {
  import opened Wrappers
  import opened Seqs
  import opened Text
  import opened Schema

  // ---------------------------------------------------------------- initials

  /** `parts.map(n => n[0]).join('')`: an empty part's `n[0]` is `undefined` and joins as nothing. */
  function FirstChars(parts: seq<string>): (r: string)
    ensures |r| <= |parts|
  {
    if parts == [] then ""
    else (if parts[0] == "" then "" else [parts[0][0]]) + FirstChars(parts[1..])
  }

  /** `name.split(' ').map(n => n[0]).join('').toUpperCase()`. */
  function Initials(name: string): (r: string)
    ensures |r| <= |Split(name, ' ')|
    ensures forall i :: 0 <= i < |r| ==> !('a' <= r[i] <= 'z')
  {
    Upper(FirstChars(Split(name, ' ')))
  }

  predicate NonEmpty(part: string) {
    part != ""
  }

  /** Empty parts contribute nothing: only the non-empty parts give a character. */
  lemma {:induction false} FirstCharsSkipsEmpty(parts: seq<string>)
    ensures FirstChars(parts) == FirstChars(Filter(parts, NonEmpty))
  {
    if parts != [] {
      FirstCharsSkipsEmpty(parts[1..]);
      if NonEmpty(parts[0]) {
        var rest := Filter(parts[1..], NonEmpty);
        assert ([parts[0]] + rest)[0] == parts[0] && ([parts[0]] + rest)[1..] == rest;
      }
    }
  }

  /** Over non-empty parts, one first letter per part. */
  lemma {:induction false} FirstCharsOfWords(words: seq<string>)
    requires forall i :: 0 <= i < |words| ==> words[i] != ""
    ensures FirstChars(words) == seq(|words|, i requires 0 <= i < |words| => words[i][0])
  {
    if words != [] {
      FirstCharsOfWords(words[1..]);
    }
  }

  /**
   * A name made of words separated by single spaces has one initial per
   * word: the word's first character, uppercased.
   */
  lemma NameInitials(words: seq<string>)
    requires |words| >= 1
    requires forall i :: 0 <= i < |words| ==> words[i] != "" && ' ' !in words[i]
    ensures Initials(Join(words, " ")) == Upper(seq(|words|, i requires 0 <= i < |words| => words[i][0]))
  {
    SplitJoin(words, ' ');
    FirstCharsOfWords(words);
  }

  /**
   * Every name: the initials are the uppercased first characters of its
   * non-empty " "-separated parts, in order, so runs of spaces and leading
   * or trailing spaces add nothing.
   */
  lemma InitialsOfAnyName(name: string)
    ensures var words := Filter(Split(name, ' '), NonEmpty);
      Initials(name) == Upper(seq(|words|, i requires 0 <= i < |words| => words[i][0]))
  {
    var words := Filter(Split(name, ' '), NonEmpty);
    FirstCharsSkipsEmpty(Split(name, ' '));
    FirstCharsOfWords(words);
  }

  // ------------------------------------------------------------------ colour

  const AvatarColors: seq<string> := [
    "bg-primary-500", "bg-success-500", "bg-warning-500", "bg-error-500", "bg-purple-500", "bg-blue-500"
  ]

  /**
   * `id.charCodeAt(0) % avatarColors.length`; for an empty id `charCodeAt`
   * gives `NaN`, modelled as `None`.
   */
  function ColorIndex(id: string): (r: Option<nat>)
    ensures r.None? <==> id == ""
    ensures r.Some? ==> r.value < |AvatarColors| && r.value == (id[0] as int) % |AvatarColors|
  {
    if id == "" then None else Some((id[0] as int) % |AvatarColors|)
  }

  /** `avatarColors[colorIndex]`: defined for every non-empty id. */
  function AvatarColor(id: string): (r: Option<string>)
    ensures r.Some? <==> id != ""
    ensures r.Some? ==> r.value in AvatarColors && r.value == AvatarColors[ColorIndex(id).value]
  {
    match ColorIndex(id)
    case None => None
    case Some(k) => Some(AvatarColors[k])
  }

  /** The colour depends on the id's first character only. */
  lemma ColorByFirstChar(a: string, b: string)
    requires a != "" && b != "" && a[0] == b[0]
    ensures AvatarColor(a) == AvatarColor(b)
  {
  }

  /** Ids whose first characters have consecutive codes take consecutive colours, cyclically. */
  lemma ColorsCycle(a: string, b: string)
    requires a != "" && b != "" && b[0] as int == a[0] as int + 1
    ensures ColorIndex(b).value == (ColorIndex(a).value + 1) % |AvatarColors|
  {
  }

  // ------------------------------------------------------------ text, badges

  /** `role || skills.join(', ')`. */
  function Subtitle(role: Option<string>, skills: seq<string>): (r: string)
    ensures Truthy(role) ==> r == role.value
    ensures !Truthy(role) ==> r == Join(skills, ", ")
  {
    if Truthy(role) then role.value else Join(skills, ", ")
  }

  /** Without a role, every skill can be read in the subtitle. */
  lemma SubtitleListsSkills(role: Option<string>, skills: seq<string>, i: nat)
    requires !Truthy(role) && i < |skills|
    ensures Includes(Subtitle(role, skills), skills[i])
  {
    JoinContains(skills, ", ", i);
  }

  /** The badge row: the skills shown, and `k` for a "+k more" badge. */
  datatype SkillBadges = SkillBadges(shown: seq<string>, more: Option<nat>)

  /** Only without a role and with some skills: the first two, and "+k more" for the rest. */
  function Badges(role: Option<string>, skills: seq<string>): (r: SkillBadges)
    ensures |skills| == 0 || Truthy(role) ==> r == SkillBadges([], None)
    ensures |skills| > 0 && !Truthy(role) ==>
      && |r.shown| == Min(2, |skills|)
      && r.shown == skills[..|r.shown|]
      && (r.more.Some? <==> |skills| > 2)
      && |r.shown| + r.more.GetOr(0) == |skills|
  {
    if |skills| == 0 || Truthy(role) then SkillBadges([], None)
    else if |skills| > 2 then SkillBadges(skills[..2], Some(|skills| - 2))
    else SkillBadges(skills, None)
  }

  /** The text of the "+k more" badge. */
  function MoreLabel(k: nat): (r: string)
    ensures |r| >= 7 && r[0] == '+' && r[|r| - 5..] == " more"
    ensures r[1..|r| - 5] == NatToString(k)
  {
    "+" + NatToString(k) + " more"
  }

  /** `status === 'active'`, with the prop defaulting to "available". */
  function ShowsActive(status: Option<string>): (r: bool)
    ensures r <==> status == Some("active")
  {
    status.GetOr("available") == "active"
  }
}
