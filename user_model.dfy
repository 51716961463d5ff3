/**
 * The user record: the e-mail validator `^[\w-\.]+@([\w-]+\.)+[\w-]{2,4}$`
 * applied after trimming and lower-casing, the field defaults and checks of
 * a new user, and the `toJSON` transform that hides the password hash.
 */
module UserModel {
  import opened Wrappers
  import opened JsText
  import opened Records

  // ---------------------------------------------------------------------------
  // Character classes of the pattern
  // ---------------------------------------------------------------------------

  /** `\w`: an ASCII letter, a digit or `_`. */
  predicate WordChar(c: char) {
    ('a' <= c <= 'z') || ('A' <= c <= 'Z') || ('0' <= c <= '9') || c == '_'
  }

  /** `[\w-\.]`: without the unicode flag the `-` after `\w` is a literal, so `-` and `.` join `\w`. */
  predicate LocalChar(c: char) {
    WordChar(c) || c == '-' || c == '.'
  }

  /** `[\w-]` */
  predicate LabelChar(c: char) {
    WordChar(c) || c == '-'
  }

  /** `[\w-\.]+` */
  predicate LocalPart(s: string) {
    s != [] && forall i :: 0 <= i < |s| ==> LocalChar(s[i])
  }

  /** `[\w-]+` */
  predicate Label(s: string) {
    s != [] && forall i :: 0 <= i < |s| ==> LabelChar(s[i])
  }

  /** `[\w-]{2,4}` */
  predicate FinalLabel(s: string) {
    2 <= |s| <= 4 && forall i :: 0 <= i < |s| ==> LabelChar(s[i])
  }

  // ---------------------------------------------------------------------------
  // The pattern, read structurally
  // ---------------------------------------------------------------------------

  /** `([\w-]+\.)+[\w-]{2,4}` matches all of `d`. */
  predicate DomainMatches(d: string)
    decreases |d|
  {
    exists i | 0 < i < |d| ::
      && d[i] == '.' && Label(d[..i])
      && (FinalLabel(d[i + 1..]) || DomainMatches(d[i + 1..]))
  }

  /** `/^[\w-\.]+@([\w-]+\.)+[\w-]{2,4}$/.test(s)` */
  predicate EmailMatches(s: string) {
    exists i | 0 <= i < |s| :: s[i] == '@' && LocalPart(s[..i]) && DomainMatches(s[i + 1..])
  }

  // ---------------------------------------------------------------------------
  // The same language, by splitting
  // ---------------------------------------------------------------------------

  /** The position of the first `c` in `s`, or `|s|` when there is none. */
  function IndexOf(s: string, c: char): (i: nat)
    ensures i <= |s| && c !in s[..i]
    ensures i < |s| ==> s[i] == c
    ensures i == |s| <==> c !in s
  {
    if s == [] then 0
    else if s[0] == c then 0
    else
      var i := IndexOf(s[1..], c);
      assert s[..i + 1] == [s[0]] + s[1..][..i];
      i + 1
  }

  /** `s.split(c)` for a one-character separator: the pieces between the separators. */
  function Split(s: string, c: char): (parts: seq<string>)
    ensures |parts| >= 1
    ensures forall k :: 0 <= k < |parts| ==> c !in parts[k]
    decreases |s|
  {
    var i := IndexOf(s, c);
    if i == |s| then [s] else [s[..i]] + Split(s[i + 1..], c)
  }

  /** `parts.join(c)` */
  function Join(parts: seq<string>, c: char): string
    requires |parts| >= 1
  {
    if |parts| == 1 then parts[0] else parts[0] + [c] + Join(parts[1..], c)
  }

  /** Splitting and joining back gives the text again. */
  lemma {:induction false} SplitJoin(s: string, c: char)
    ensures Join(Split(s, c), c) == s
    decreases |s|
  {
    var i := IndexOf(s, c);
    if i < |s| {
      var rest := Split(s[i + 1..], c);
      assert Split(s, c) == [s[..i]] + rest;
      assert ([s[..i]] + rest)[1..] == rest;
      SplitJoin(s[i + 1..], c);
      assert Join(Split(s, c), c) == s[..i] + [c] + s[i + 1..];
      assert s == s[..i] + [c] + s[i + 1..];
    }
  }

  /** There is one more piece than there are separators. */
  lemma {:induction false} SplitCount(s: string, c: char)
    ensures |Split(s, c)| == Count(s, c) + 1
    decreases |s|
  {
    var i := IndexOf(s, c);
    if i < |s| {
      var rest := s[i + 1..];
      SplitAt(s, c, i);
      SplitCount(rest, c);
      assert Count(s, c) == Count(rest, c) + 1 by {
        assert s == s[..i] + ([c] + rest);
        CountAppend(s[..i], [c] + rest, c);
        assert ([c] + rest)[1..] == rest;
      }
    }
  }

  lemma {:induction false} CountAppend(a: string, b: string, c: char)
    ensures Count(a + b, c) == Count(a, c) + Count(b, c)
    decreases |a|
  {
    if a == [] {
      assert a + b == b;
    } else {
      assert (a + b)[1..] == a[1..] + b;
      CountAppend(a[1..], b, c);
    }
  }

  /** Dot-separated labels, at least two, the last of 2 to 4 characters. */
  predicate DomainShape(d: string) {
    LabelsShape(Split(d, '.'))
  }

  /** At least two labels, the last of 2 to 4 characters. */
  predicate LabelsShape(labels: seq<string>) {
    && |labels| >= 2
    && (forall k :: 0 <= k < |labels| - 1 ==> Label(labels[k]))
    && FinalLabel(labels[|labels| - 1])
  }

  /** `LabelsShape` peeled one label at a time. */
  lemma LabelsShapeCons(x: string, rest: seq<string>)
    requires |rest| >= 1
    ensures LabelsShape([x] + rest) <==>
            Label(x) && (if |rest| == 1 then FinalLabel(rest[0]) else LabelsShape(rest))
  {
    var ls := [x] + rest;
    assert ls[0] == x && ls[1..] == rest;
    if LabelsShape(ls) && |rest| > 1 {
      forall k | 0 <= k < |rest| - 1 ensures Label(rest[k]) {
        assert rest[k] == ls[k + 1];
      }
    }
    if Label(x) && |rest| > 1 && LabelsShape(rest) {
      forall k | 0 <= k < |ls| - 1 ensures Label(ls[k]) {
        if k > 0 {
          assert ls[k] == rest[k - 1];
        }
      }
    }
  }

  /** Exactly one `@`, splitting the text into a local part and a domain of that shape. */
  predicate EmailShape(s: string) {
    var parts := Split(s, '@');
    |parts| == 2 && LocalPart(parts[0]) && DomainShape(parts[1])
  }

  /** A text without `.` is a single piece. */
  lemma SplitNoSeparator(s: string, c: char)
    requires c !in s
    ensures Split(s, c) == [s]
  {
  }

  /** A text whose first `c` is at `i` splits there. */
  lemma SplitAt(s: string, c: char, i: nat)
    requires i < |s| && s[i] == c && c !in s[..i]
    ensures Split(s, c) == [s[..i]] + Split(s[i + 1..], c)
  {
    var j := IndexOf(s, c);
    assert s[..i + 1][i] == c;
  }

  /** A label, or a final label, has no dot in it. */
  lemma LabelCharsNoDot(s: string)
    requires forall k :: 0 <= k < |s| ==> LabelChar(s[k])
    ensures '.' !in s && '@' !in s
  {
    forall k | 0 <= k < |s| ensures s[k] != '.' && s[k] != '@' {
      assert LabelChar(s[k]);
    }
  }

  /** A local part has no `@` in it. */
  lemma LocalCharsNoAt(s: string)
    requires LocalPart(s)
    ensures '@' !in s
  {
    forall k | 0 <= k < |s| ensures s[k] != '@' {
      assert LocalChar(s[k]);
    }
  }

  /** Every domain the pattern matches has the dot-separated shape. */
  lemma {:induction false} DomainMatchesHasShape(d: string)
    requires DomainMatches(d)
    ensures DomainShape(d)
    decreases |d|
  {
    var i :| 0 < i < |d| && d[i] == '.' && Label(d[..i])
             && (FinalLabel(d[i + 1..]) || DomainMatches(d[i + 1..]));
    LabelCharsNoDot(d[..i]);
    SplitAt(d, '.', i);
    var rest := d[i + 1..];
    if FinalLabel(rest) {
      LabelCharsNoDot(rest);
      SplitNoSeparator(rest, '.');
    } else {
      DomainMatchesHasShape(rest);
    }
    LabelsShapeCons(d[..i], Split(rest, '.'));
  }

  /** Every domain of the dot-separated shape is matched by the pattern. */
  lemma {:induction false} DomainShapeMatches(d: string)
    requires DomainShape(d)
    ensures DomainMatches(d)
    decreases |d|
  {
    var i := IndexOf(d, '.');
    SplitAt(d, '.', i);
    var rest := d[i + 1..];
    var tail := Split(rest, '.');
    LabelsShapeCons(d[..i], tail);
    if |tail| == 1 {
      SplitJoin(rest, '.');
      assert FinalLabel(rest);
    } else {
      DomainShapeMatches(rest);
    }
    assert d[i] == '.' && Label(d[..i]) && (FinalLabel(d[i + 1..]) || DomainMatches(d[i + 1..]));
  }

  /** The pattern's domain part matches exactly the dot-separated domains described above. */
  lemma DomainMatchesShape(d: string)
    ensures DomainMatches(d) <==> DomainShape(d)
  {
    if DomainMatches(d) {
      DomainMatchesHasShape(d);
    }
    if DomainShape(d) {
      DomainShapeMatches(d);
    }
  }

  /**
   * The pattern accepts exactly the texts with one `@`, a non-empty local
   * part over `[A-Za-z0-9_.-]`, and a domain of at least two dot-separated
   * non-empty labels over `[A-Za-z0-9_-]` whose last label has 2 to 4
   * characters.
   */
  lemma EmailMatchesShape(s: string)
    ensures EmailMatches(s) <==> EmailShape(s)
  {
    if EmailMatches(s) {
      EmailMatchesHasShape(s);
    }
    if EmailShape(s) {
      EmailShapeMatches(s);
    }
  }

  lemma EmailMatchesHasShape(s: string)
    requires EmailMatches(s)
    ensures EmailShape(s)
  {
    var i :| 0 <= i < |s| && s[i] == '@' && LocalPart(s[..i]) && DomainMatches(s[i + 1..]);
    var local := s[..i];
    LocalCharsNoAt(local);
    SplitAt(s, '@', i);
    var d := s[i + 1..];
    DomainMatchesHasShape(d);
    SplitNoAt(d);
    SplitNoSeparator(d, '@');
    assert Split(s, '@') == [local, d];
  }

  lemma EmailShapeMatches(s: string)
    requires EmailShape(s)
    ensures EmailMatches(s)
  {
    var parts := Split(s, '@');
    var i := IndexOf(s, '@');
    SplitAt(s, '@', i);
    var d := s[i + 1..];
    assert Split(d, '@') == [parts[1]];
    SplitJoin(d, '@');
    DomainShapeMatches(d);
    assert s[i] == '@' && LocalPart(s[..i]) && DomainMatches(s[i + 1..]);
  }

  /** A domain of that shape contains no `@`. */
  lemma SplitNoAt(d: string)
    requires DomainShape(d)
    ensures '@' !in d
  {
    var labels := Split(d, '.');
    SplitJoin(d, '.');
    JoinOfLabels(labels);
  }

  /** Joining labels with dots gives a text over `[A-Za-z0-9_.-]`, so without `@`. */
  lemma {:induction false} JoinOfLabels(labels: seq<string>)
    requires |labels| >= 1
    requires forall k :: 0 <= k < |labels| ==> forall j :: 0 <= j < |labels[k]| ==> LabelChar(labels[k][j])
    ensures '@' !in Join(labels, '.')
    decreases |labels|
  {
    if |labels| > 1 {
      JoinOfLabels(labels[1..]);
      assert '@' !in labels[0] by {
        forall j | 0 <= j < |labels[0]| ensures labels[0][j] != '@' {
          assert LabelChar(labels[0][j]);
        }
      }
    } else {
      assert '@' !in labels[0] by {
        forall j | 0 <= j < |labels[0]| ensures labels[0][j] != '@' {
          assert LabelChar(labels[0][j]);
        }
      }
    }
  }

  /** A text the pattern accepts has exactly one `@`. */
  lemma AcceptedHasOneAt(s: string)
    requires EmailMatches(s)
    ensures Count(s, '@') == 1
  {
    EmailMatchesHasShape(s);
    SplitCount(s, '@');
  }

  // ---------------------------------------------------------------------------
  // Setters: trim, then lower-case
  // ---------------------------------------------------------------------------

  /** The `trim` and `lowercase` setters of the e-mail path, applied in that order. */
  function NormalizeEmail(v: string): (r: string)
    ensures |r| <= |v|
    ensures forall k :: 0 <= k < |r| ==> !('A' <= r[k] <= 'Z')
    ensures r == [] || (!IsJsWhitespace(r[0]) && !IsJsWhitespace(r[|r| - 1]))
  {
    var t := Trim(v);
    LowerKeepsWhitespace(t);
    ToLower(t)
  }

  /** Lower-casing neither creates nor removes white space at either end. */
  lemma LowerKeepsWhitespace(t: string)
    ensures forall k :: 0 <= k < |t| ==> (IsJsWhitespace(ToLower(t)[k]) <==> IsJsWhitespace(t[k]))
  {
  }

  /** Setting a stored e-mail again leaves it as it is. */
  lemma NormalizeEmailIdempotent(v: string)
    ensures NormalizeEmail(NormalizeEmail(v)) == NormalizeEmail(v)
  {
    var r := NormalizeEmail(v);
    TrimmedFixed(r);
    LowerFixed(r);
  }

  /** A text without upper-case ASCII letters is its own lower-case form. */
  lemma LowerFixed(r: string)
    requires forall k :: 0 <= k < |r| ==> !('A' <= r[k] <= 'Z')
    ensures ToLower(r) == r
  {
    var l := ToLower(r);
    assert forall k :: 0 <= k < |r| ==> l[k] == r[k];
  }

  /** The e-mail path's checks: present, non-empty and matched by the pattern once normalised. */
  predicate EmailValid(v: Option<string>) {
    v.Some? && NormalizeEmail(v.value) != [] && EmailMatches(NormalizeEmail(v.value))
  }

  /**
   * An e-mail is accepted exactly when, after trimming and lower-casing, it
   * has one `@`, a local part over `[a-z0-9_.-]` and a dot-separated domain
   * whose last label has 2 to 4 characters.
   */
  lemma EmailValidIffShape(v: string)
    ensures EmailValid(Some(v)) <==> EmailShape(NormalizeEmail(v))
  {
    var r := NormalizeEmail(v);
    EmailMatchesShape(r);
    if EmailShape(r) {
      assert Split(r, '@')[0] != [];
    }
  }

  /** Surrounding white space and upper-case letters do not change whether an e-mail is accepted. */
  lemma EmailValidIgnoresCaseAndPadding(v: string)
    ensures EmailValid(Some(v)) <==> EmailValid(Some(NormalizeEmail(v)))
  {
    NormalizeEmailIdempotent(v);
  }

  // ---------------------------------------------------------------------------
  // A new user
  // ---------------------------------------------------------------------------

  /** The longest `bio` the schema accepts. */
  const BioMaxLength := 500

  /** The fields given when a user is created; an absent one is `None`. */
  datatype UserInput = UserInput(
    username: Option<string>,
    hashedPassword: Option<string>,
    email: Option<string>,
    avatar: Option<string>,
    bio: Option<string>,
    savedPosts: seq<Id>)

  /** A stored user. */
  datatype User = User(
    username: string,
    hashedPassword: string,
    email: string,
    avatar: string,
    bio: string,
    savedPosts: seq<Id>)

  /** The paths whose validation can fail. */
  datatype UserField = Username | HashedPassword | Email | Bio

  datatype UserResult = Saved(user: User) | Rejected(fields: set<UserField>)

  /** `required` on a string path: present and not empty. */
  predicate Required(v: Option<string>) {
    v.Some? && v.value != []
  }

  /** The paths of `input` that fail validation, after the setters have run. */
  function InvalidFields(input: UserInput): (fields: set<UserField>)
    ensures Username in fields <==> input.username.None? || Trim(input.username.value) == []
    ensures HashedPassword in fields <==> !Required(input.hashedPassword)
    ensures Email in fields <==> !EmailValid(input.email)
    ensures Bio in fields <==> input.bio.Some? && |input.bio.value| > BioMaxLength
  {
    Failing(input.username.None? || Trim(input.username.value) == [],
            !Required(input.hashedPassword),
            !EmailValid(input.email),
            input.bio.Some? && |input.bio.value| > BioMaxLength)
  }

  /** The set of paths from the outcome of each path's check. */
  function Failing(username: bool, hashedPassword: bool, email: bool, bio: bool): (fields: set<UserField>)
    ensures Username in fields <==> username
    ensures HashedPassword in fields <==> hashedPassword
    ensures Email in fields <==> email
    ensures Bio in fields <==> bio
  {
    (if username then {Username} else {}) + (if hashedPassword then {HashedPassword} else {})
    + (if email then {Email} else {}) + (if bio then {Bio} else {})
  }

  /**
   * Validating and saving a new user: every failing path is reported;
   * otherwise the user is stored with a trimmed username, a normalised
   * e-mail of the accepted shape, `avatar` and `bio` defaulting to the empty
   * text, and a bio of at most 500 characters.
   */
  function NewUser(input: UserInput): (r: UserResult)
    ensures r.Rejected? <==> InvalidFields(input) != {}
    ensures r.Rejected? ==> r.fields == InvalidFields(input)
    ensures r.Saved? ==>
      && input.username.Some? && r.user.username == Trim(input.username.value) && r.user.username != []
      && input.hashedPassword == Some(r.user.hashedPassword) && r.user.hashedPassword != []
      && input.email.Some? && r.user.email == NormalizeEmail(input.email.value)
      && EmailShape(r.user.email)
      && r.user.avatar == input.avatar.GetOr([])
      && r.user.bio == input.bio.GetOr([]) && |r.user.bio| <= BioMaxLength
      && r.user.savedPosts == input.savedPosts
  {
    var bad := InvalidFields(input);
    if bad != {} then Rejected(bad)
    else
      EmailValidIffShape(input.email.value);
      Saved(User(
        Trim(input.username.value),
        input.hashedPassword.value,
        NormalizeEmail(input.email.value),
        input.avatar.GetOr([]),
        input.bio.GetOr([]),
        input.savedPosts))
  }

  /** Validation of a stored user's own e-mail succeeds again: it is a fixed point of the setters. */
  lemma SavedEmailRevalidates(input: UserInput)
    requires NewUser(input).Saved?
    ensures EmailValid(Some(NewUser(input).user.email))
    ensures NormalizeEmail(NewUser(input).user.email) == NewUser(input).user.email
  {
    NormalizeEmailIdempotent(input.email.value);
  }

  // ---------------------------------------------------------------------------
  // toJSON
  // ---------------------------------------------------------------------------

  /** The `toJSON` transform: the document's fields without `hashedPassword`. */
  function ToJSON<V>(ret: map<string, V>): (r: map<string, V>)
    ensures "hashedPassword" !in r
    ensures forall k :: k in r <==> k in ret && k != "hashedPassword"
    ensures forall k :: k in r ==> r[k] == ret[k]
  {
    ret - {"hashedPassword"}
  }

  /** Transforming twice is transforming once, and a document without a hash is left alone. */
  lemma ToJSONIdempotent<V>(ret: map<string, V>)
    ensures ToJSON(ToJSON(ret)) == ToJSON(ret)
    ensures "hashedPassword" !in ret ==> ToJSON(ret) == ret
  {
  }

  /** A field of a user document. */
  datatype FieldValue = Text(text: string) | IdList(ids: seq<Id>)

  /** The schema's fields of a stored user, by path name. */
  function UserDocument(u: User): map<string, FieldValue> {
    map[
      "username" := Text(u.username),
      "hashedPassword" := Text(u.hashedPassword),
      "email" := Text(u.email),
      "avatar" := Text(u.avatar),
      "bio" := Text(u.bio),
      "savedPosts" := IdList(u.savedPosts)]
  }

  /** A user serialised to JSON shows every schema field except the password hash. */
  lemma UserJSONHidesHash(u: User)
    ensures ToJSON(UserDocument(u)).Keys == {"username", "email", "avatar", "bio", "savedPosts"}
    ensures forall k :: k in ToJSON(UserDocument(u)) ==> ToJSON(UserDocument(u))[k] == UserDocument(u)[k]
  {
  }
}
