/** The request-body validators of app/schemas.py as predicates. Lengths
    are counted in characters, as marshmallow's `Length` does. Email
    syntax (`fields.Email`) is not part of this model. */
module Schemas {
  import opened Domain

  /** `validate.Length(min, max)` on a present field. */
  predicate LengthWithin(s: string, min: nat, max: nat)
  {
    min <= |s| <= max
  }

  /** A character of the class `[a-zA-Z0-9_]`. */
  predicate UsernameChar(c: char)
  {
    ('a' <= c <= 'z') || ('A' <= c <= 'Z') || ('0' <= c <= '9') || c == '_'
  }

  predicate AllUsernameChars(s: string)
  {
    forall i :: 0 <= i < |s| ==> UsernameChar(s[i])
  }

  /** The username rule: one or more class characters; since Python's `$`
      also matches before a final newline, one trailing "\n" is let through. */
  predicate ValidUsername(s: string)
  {
    var word := if |s| > 0 && s[|s| - 1] == '\n' then s[..|s| - 1] else s;
    |word| > 0 && AllUsernameChars(word)
  }

  /** What `re.match(r"^[a-zA-Z0-9_]+$", s)` accepts, read off the pattern:
      a prefix of one or more class characters, then the end of the
      string or a newline that is the last character. */
  ghost predicate RegexAccepts(s: string)
  {
    exists k :: 1 <= k <= |s| && AllUsernameChars(s[..k]) && (k == |s| || (k == |s| - 1 && s[k] == '\n'))
  }

  /** The username predicate is exactly the regular expression. */
  lemma {:induction false} UsernameMatchesRegex(s: string)
    ensures ValidUsername(s) <==> RegexAccepts(s)
  {
    if ValidUsername(s) {
      var k := if s[|s| - 1] == '\n' then |s| - 1 else |s|;
      assert s[..k][..] == s[..k];
      assert AllUsernameChars(s[..k]);
    }
    if RegexAccepts(s) {
      var k :| 1 <= k <= |s| && AllUsernameChars(s[..k]) && (k == |s| || (k == |s| - 1 && s[k] == '\n'));
      if k == |s| {
        assert s[..k] == s;
        assert UsernameChar(s[|s| - 1]);
      } else {
        assert s[..|s| - 1] == s[..k];
      }
    }
  }

  /** `CreateUserSchema` (app/schemas.py:13-31): the username pattern and a
      password of at least 8 characters. */
  predicate ValidPassword(s: string)
  {
    |s| >= 8
  }

  /** `UpdateUserSchema` (app/schemas.py:38-41): every field optional; names
      of 1 to 40 characters, a cover of at least 1. */
  datatype UserUpdate = UserUpdate(firstName: Option<string>, lastName: Option<string>, cover: Option<string>)

  predicate ValidUserUpdate(u: UserUpdate)
  {
    && (u.firstName.Some? ==> LengthWithin(u.firstName.value, 1, 40))
    && (u.lastName.Some? ==> LengthWithin(u.lastName.value, 1, 40))
    && (u.cover.Some? ==> |u.cover.value| >= 1)
  }

  /** `CreateContentSchema` (app/schemas.py:44-49): a required title of 10 to
      80 characters, an optional description of 10 to 255, and tags that
      all parse as UUIDs (the route always supplies the list). */
  datatype ContentForm = ContentForm(title: Option<string>, description: Option<string>, tags: seq<PathId>)

  predicate ValidContentForm(f: ContentForm)
  {
    && f.title.Some? && LengthWithin(f.title.value, 10, 80)
    && (f.description.Some? ==> LengthWithin(f.description.value, 10, 255))
    && (forall i :: 0 <= i < |f.tags| ==> f.tags[i].Parsed?)
  }

  /** `CreateTagScheme` (app/schemas.py:50-51). */
  predicate ValidTagTitle(title: string)
  {
    LengthWithin(title, 3, 20)
  }

  /** `CreateComment` (app/schemas.py:53-54). */
  predicate ValidCommentText(text: string)
  {
    LengthWithin(text, 1, 256)
  }

  /** The width of the video `title` and `description` columns
      (app/models.py:71-72). */
  const TextColumnWidth: nat := 255

  /** A content form the schema accepts carries a title, fits the video
      columns, and names its tags by parsed ids only. */
  lemma {:induction false} ValidContentFitsColumns(f: ContentForm)
    requires ValidContentForm(f)
    ensures f.title.Some? && 10 <= |f.title.value| <= TextColumnWidth
    ensures f.description.Some? ==> 10 <= |f.description.value| <= TextColumnWidth
    ensures forall i :: 0 <= i < |f.tags| ==> f.tags[i] == Parsed(f.tags[i].id)
  {
    forall i | 0 <= i < |f.tags|
      ensures f.tags[i] == Parsed(f.tags[i].id)
    {
      assert f.tags[i].Parsed?;
    }
  }

  /** The username rule sets no length, while the column holds 45
      characters: a 46-character name passes the schema. */
  lemma UsernameHasNoLengthLimit()
    ensures var name := seq(46, _ => 'a'); ValidUsername(name) && |name| > 45
  {
    var name := seq(46, _ => 'a');
    assert name[45] == 'a';
    assert forall i :: 0 <= i < |name| ==> name[i] == 'a';
  }

  /** Boundary cases of the validators. */
  lemma ValidatorBoundaries()
    ensures ValidUsername("user_01") && ValidUsername("user\n") && !ValidUsername("\n")
    ensures !ValidUsername("") && !ValidUsername("a-b") && !ValidUsername("a\n\n")
    ensures !ValidPassword("1234567") && ValidPassword("12345678")
    ensures !ValidTagTitle("ab") && ValidTagTitle("abc") && ValidTagTitle("abcdefghijklmnopqrst")
    ensures !ValidTagTitle("abcdefghijklmnopqrstu")
    ensures !ValidCommentText("") && ValidCommentText("a")
    ensures ValidUserUpdate(UserUpdate(None, None, None)) && !ValidUserUpdate(UserUpdate(Some(""), None, None))
  {
    assert !UsernameChar('-') && !UsernameChar('\n');
    assert "a-b"[1] == '-';
    assert "a\n\n"[..2][1] == '\n';
    assert "user\n"[..4] == "user";
  }
}
