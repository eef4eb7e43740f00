/** The account shown by components/dashboard-header.tsx: the display
    defaults for a missing session field and the avatar initials. */
module Header {
  import opened JsText

  const DefaultName: string := "Utilisateur"
  const DefaultEmail: string := "utilisateur@example.com"
  const DefaultAvatar: string := ""

  /** The session's user fields, each possibly missing. */
  datatype User = User(name: Option<string>, email: Option<string>, image: Option<string>)

  datatype Account = Account(name: string, email: string, avatar: string, initials: string)

  /** `s[0]` joined into a string: the first character, or nothing when `s`
      is empty (`undefined` joins as the empty string). */
  function FirstChar(s: string): (r: string)
    ensures |r| <= 1
    ensures r == [] <==> s == []
    ensures s != [] ==> r[0] == s[0]
  {
    if s == [] then [] else [s[0]]
  }

  /** `(name || "U").split(" ").map(s => s[0]).join("") || "U"`. */
  function Initials(name: Option<string>): (r: string)
    ensures r != []
  {
    var pieces := SplitOn(Or(name, "U"), ' ');
    var joined := FlatMap(pieces, FirstChar);
    if joined == [] then "U" else joined
  }

  /** `userAccount`: every field with its default. */
  function AccountOf(session: Option<User>): (r: Account)
    ensures session.None? ==> r == Account(DefaultName, DefaultEmail, DefaultAvatar, "U")
    ensures session.Some? ==> r.name == Or(session.value.name, DefaultName)
    ensures session.Some? ==> r.email == Or(session.value.email, DefaultEmail)
    ensures session.Some? ==> r.avatar == Or(session.value.image, DefaultAvatar)
    ensures session.Some? ==> r.initials == Initials(session.value.name)
  {
    match session
    case None =>
      MissingNameInitials(None);
      Account(DefaultName, DefaultEmail, DefaultAvatar, Initials(None))
    case Some(u) =>
      Account(Or(u.name, DefaultName), Or(u.email, DefaultEmail), Or(u.image, DefaultAvatar), Initials(u.name))
  }

  /** A missing or empty name has the initials `"U"`. */
  lemma MissingNameInitials(name: Option<string>)
    requires !Truthy(name)
    ensures Initials(name) == "U"
  {
    SplitOnNoSeparator("U", ' ');
    assert FlatMap(["U"], FirstChar) == FlatMap([], FirstChar) + FirstChar("U");
  }

  /** One character per word, in order. */
  lemma {:induction false} FirstsOfWords(words: seq<string>)
    requires forall i :: 0 <= i < |words| ==> words[i] != []
    ensures FlatMap(words, FirstChar) == seq(|words|, i requires 0 <= i < |words| => words[i][0])
  {
    if words != [] {
      var init := words[..|words| - 1];
      FirstsOfWords(init);
    }
  }

  /** Words separated by single spaces give their first characters. */
  lemma WordInitials(words: seq<string>)
    requires |words| >= 1
    requires forall i :: 0 <= i < |words| ==> words[i] != [] && ' ' !in words[i]
    ensures Initials(Some(Join(words, " "))) == seq(|words|, i requires 0 <= i < |words| => words[i][0])
  {
    var name := Join(words, " ");
    JoinStartsWith(words, " ");
    assert name != [];
    assert " " == [' '];
    SplitJoin(words, ' ');
    FirstsOfWords(words);
  }

  /** An empty piece contributes nothing. */
  lemma EmptyPieceIgnored(a: seq<string>, b: seq<string>)
    ensures FlatMap(a + [""] + b, FirstChar) == FlatMap(a + b, FirstChar)
  {
    FlatMapConcat(a + [""], b, FirstChar);
    FlatMapConcat(a, [""], FirstChar);
    assert FlatMap([""], FirstChar) == FlatMap([], FirstChar) + FirstChar("");
    FlatMapConcat(a, b, FirstChar);
  }

  /** Splitting at a single space concatenates the pieces of both sides. */
  lemma SplitAtSpace(x: string, y: string)
    ensures SplitOn(x + " " + y, ' ') == SplitOn(x, ' ') + SplitOn(y, ' ')
  {
    var sx, sy := SplitOn(x, ' '), SplitOn(y, ' ');
    var n := |sx|;
    SplitOnSeparatorFirst(y, ' ');
    assert [' '] + y == " " + y;
    SplitOnConcat(x, " " + y, ' ');
    assert x + " " + y == x + (" " + y);
    assert sx[n - 1] + "" == sx[n - 1];
    assert sx[..n - 1] + [sx[n - 1]] == sx;
  }

  /** A doubled space adds one empty piece between the two sides. */
  lemma SplitAtDoubleSpace(x: string, y: string)
    ensures SplitOn(x + "  " + y, ' ') == SplitOn(x, ' ') + [""] + SplitOn(y, ' ')
  {
    SplitAtSpace(x, " " + y);
    SplitOnSeparatorFirst(y, ' ');
    assert [' '] + y == " " + y;
    assert x + " " + (" " + y) == x + "  " + y;
  }

  /** A doubled space between two parts of the name changes nothing. */
  lemma DoubleSpace(x: string, y: string)
    ensures Initials(Some(x + "  " + y)) == Initials(Some(x + " " + y))
  {
    SplitAtSpace(x, y);
    SplitAtDoubleSpace(x, y);
    EmptyPieceIgnored(SplitOn(x, ' '), SplitOn(y, ' '));
  }
}
