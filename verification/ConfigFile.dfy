/** The text of a configuration file: comments, and the values behind quoted keys. */
module ConfigFile {
  import opened Slices
  import opened Strings
  import opened Wrappers

  /** A quote opens or closes a string unless a backslash precedes it. */
  function InString(content: string, i: nat, before: bool): bool
    requires i < |content|
  {
    if content[i] == '"' && (i == 0 || content[i - 1] != '\\') then !before else before
  }

  predicate CommentAt(content: string, i: nat) {
    i + 1 < |content| && content[i] == '/' && content[i + 1] == '/'
  }

  /** The end of the line that goes on at `i`. */
  function LineEnd(content: string, i: nat): (end: nat)
    requires i <= |content|
    ensures i <= end <= |content|
    decreases |content| - i
  {
    if i < |content| && content[i] != '\n' then LineEnd(content, i + 1) else i
  }

  /** The text from `i` on without line comments; a comment goes with the newline behind it. */
  function Uncommented(content: string, i: nat, inString: bool): string
    decreases |content| - i
  {
    if i >= |content| then ""
    else
      var inside := InString(content, i, inString);
      if !inside && CommentAt(content, i) then Uncommented(content, LineEnd(content, i) + 1, inside)
      else [content[i]] + Uncommented(content, i + 1, inside)
  }

  method SkipLine(content: string, start: nat) returns (i: nat)
    requires start <= |content|
    ensures i == LineEnd(content, start)
  {
    i := start;
    while i < |content| && content[i] != '\n'
      invariant start <= i <= |content| && LineEnd(content, i) == LineEnd(content, start)
    {
      i := i + 1;
    }
  }

  method RemoveComments(content: string) returns (json: string)
    ensures json == Uncommented(content, 0, false)
  {
    hide LineEnd;
    json := "";
    var inString := false;
    var i := 0;
    while i < |content|
      invariant json + Uncommented(content, i, inString) == Uncommented(content, 0, false)
      decreases |content| - i
    {
      var c := content[i];
      if c == '"' && (i == 0 || content[i - 1] != '\\') {
        inString := !inString;
      }
      if !inString && c == '/' && i + 1 < |content| && content[i + 1] == '/' {
        i := SkipLine(content, i);
        i := i + 1;
      } else {
        ConcatAssociative(json, [c], Uncommented(content, i + 1, inString));
        json := json + [c];
        i := i + 1;
      }
    }
  }

  /** A text without slashes has no comments. */
  lemma {:induction false} NothingToRemove(content: string, i: nat, inString: bool)
    requires '/' !in content && i <= |content|
    ensures Uncommented(content, i, inString) == content[i..]
    decreases |content| - i
  {
    if i < |content| {
      assert content[i] != '/';
      NothingToRemove(content, i + 1, InString(content, i, inString));
    }
  }

  /** Text outside strings, a string between its quotes, or a line comment between its slashes and its newline. */
  datatype Piece = Code(text: string) | Literal(text: string) | Comment(text: string)

  ghost predicate Proper(p: Piece) {
    match p
    case Code(text) =>
      && (forall i :: 0 <= i < |text| ==> text[i] != '"' && !CommentAt(text, i))
      && (text != "" ==> text[|text| - 1] != '/' && text[|text| - 1] != '\\')
    case Literal(text) =>
      && (forall i :: 0 <= i < |text| && text[i] == '"' ==> i > 0 && text[i - 1] == '\\')
      && (text != "" ==> text[|text| - 1] != '\\')
    case Comment(text) => '\n' !in text
  }

  function PieceText(p: Piece): string {
    match p
    case Code(text) => text
    case Literal(text) => "\"" + text + "\""
    case Comment(text) => "//" + text + "\n"
  }

  function PiecesText(pieces: seq<Piece>): string {
    if pieces == [] then "" else PieceText(pieces[0]) + PiecesText(pieces[1..])
  }

  /** The text of all pieces but the comments. */
  function Kept(pieces: seq<Piece>): string {
    if pieces == [] then "" else (if pieces[0].Comment? then "" else PieceText(pieces[0])) + Kept(pieces[1..])
  }

  /** Nothing from `i` to `j` begins or ends a string or begins a comment. */
  lemma {:induction false} PassOver(content: string, i: nat, j: nat, inside: bool)
    requires i <= j <= |content|
    requires forall k :: i <= k < j ==> InString(content, k, inside) == inside && (inside || !CommentAt(content, k))
    ensures Uncommented(content, i, inside) == content[i..j] + Uncommented(content, j, inside)
    decreases j - i
  {
    if i < j {
      PassOver(content, i + 1, j, inside);
      assert content[i..j] == [content[i]] + content[i + 1..j];
      ConcatAssociative([content[i]], content[i + 1..j], Uncommented(content, j, inside));
    } else {
      assert content[i..j] == "";
      assert "" + Uncommented(content, j, inside) == Uncommented(content, j, inside);
    }
  }

  lemma PassQuote(content: string, i: nat, inside: bool)
    requires i < |content| && content[i] == '"' && (i == 0 || content[i - 1] != '\\')
    ensures Uncommented(content, i, inside) == "\"" + Uncommented(content, i + 1, !inside)
  {
  }

  lemma {:induction false} LineEndAt(content: string, i: nat, end: nat)
    requires i <= end <= |content| && (end < |content| ==> content[end] == '\n') && forall k :: i <= k < end ==> content[k] != '\n'
    ensures LineEnd(content, i) == end
    decreases end - i
  {
    if i < end {
      LineEndAt(content, i + 1, end);
    }
  }

  lemma RemoveComment(content: string, i: nat, end: nat)
    requires i + 2 <= end <= |content| && content[i] == '/' && content[i + 1] == '/'
    requires (forall k :: i + 2 <= k < end ==> content[k] != '\n') && (end < |content| ==> content[end] == '\n')
    ensures Uncommented(content, i, false) == Uncommented(content, end + 1, false)
  {
    hide LineEnd;
    LineEndAt(content, i, end);
  }

  lemma KeepCode(content: string, i: nat, j: nat)
    requires i <= j <= |content| && Proper(Code(content[i..j]))
    ensures Uncommented(content, i, false) == content[i..j] + Uncommented(content, j, false)
  {
    hide Uncommented;
    var text := content[i..j];
    forall k | i <= k < j
      ensures content[k] != '"' && !CommentAt(content, k)
    {
      assert content[k] == text[k - i] && !CommentAt(text, k - i);
      if k + 1 < j {
        assert content[k + 1] == text[k + 1 - i];
      }
    }
    PassOver(content, i, j, false);
  }

  lemma KeepLiteral(content: string, i: nat, j: nat)
    requires i < j < |content| && content[i] == '"' && content[j] == '"' && Proper(Literal(content[i + 1..j]))
    requires i > 0 ==> content[i - 1] != '\\'
    ensures Uncommented(content, i, false) == content[i..j + 1] + Uncommented(content, j + 1, false)
  {
    hide Uncommented;
    var text := content[i + 1..j];
    forall k | i + 1 <= k < j
      ensures InString(content, k, true)
    {
      assert content[k] == text[k - i - 1];
      assert k > i + 1 ==> content[k - 1] == text[k - i - 2];
    }
    assert j > i + 1 ==> content[j - 1] == text[|text| - 1];
    PassQuote(content, i, false);
    PassOver(content, i + 1, j, true);
    PassQuote(content, j, true);
    QuotesAround(text, Uncommented(content, j + 1, false));
    Surrounded(content, i, j);
  }

  lemma Surrounded(content: string, i: nat, j: nat)
    requires i < j < |content| && content[i] == '"' && content[j] == '"'
    ensures content[i..j + 1] == "\"" + content[i + 1..j] + "\""
  {
    assert "\"" == ['"'];
    assert content[i..j + 1] == [content[i]] + content[i + 1..j] + [content[j]];
  }

  lemma QuotesAround(text: string, rest: string)
    ensures "\"" + (text + ("\"" + rest)) == "\"" + text + "\"" + rest
  {
  }

  lemma SplitAt(content: string, i: nat, a: string, b: string)
    requires i <= |content| && content[i..] == a + b
    ensures i + |a| <= |content| && content[i..i + |a|] == a && content[i + |a|..] == b
  {
    assert content[i..][..|a|] == a && content[i..][|a|..] == b;
  }

  /** What a piece is made into, at its place in a text. */
  lemma KeepPiece(content: string, i: nat, p: Piece)
    requires Proper(p) && (i > 0 ==> i <= |content| && content[i - 1] != '\\')
    requires i + |PieceText(p)| <= |content| && content[i..i + |PieceText(p)|] == PieceText(p)
    ensures var j := i + |PieceText(p)|;
            && Uncommented(content, i, false) == (if p.Comment? then "" else PieceText(p)) + Uncommented(content, j, false)
            && (j > 0 ==> content[j - 1] != '\\')
  {
    hide Uncommented, CommentAt, Proper;
    var j := i + |PieceText(p)|;
    match p
    case Code(text) =>
      KeepCode(content, i, j);
      CodeEnds(content, i, text);
    case Literal(text) =>
      LiteralPlaces(content, i, text);
      KeepLiteral(content, i, j - 1);
    case Comment(text) =>
      CommentPlaces(content, i, text);
      RemoveComment(content, i, j - 1);
      assert "" + Uncommented(content, j, false) == Uncommented(content, j, false);
  }

  lemma CodeEnds(content: string, i: nat, text: string)
    requires Proper(Code(text)) && (i > 0 ==> i <= |content| && content[i - 1] != '\\')
    requires i + |text| <= |content| && content[i..i + |text|] == text
    ensures i + |text| > 0 ==> content[i + |text| - 1] != '\\'
  {
    if text != "" {
      assert content[i + |text| - 1] == content[i..i + |text|][|text| - 1];
    }
  }

  lemma LiteralPlaces(content: string, i: nat, text: string)
    requires var n := |PieceText(Literal(text))|; i + n <= |content| && content[i..i + n] == PieceText(Literal(text))
    ensures |PieceText(Literal(text))| == |text| + 2
    ensures content[i] == '"' && content[i + 1 + |text|] == '"' && content[i + 1..i + 1 + |text|] == text
  {
    var w := "\"" + text + "\"";
    assert content[i] == content[i..i + |w|][0] && content[i + 1 + |text|] == content[i..i + |w|][1 + |text|];
    assert content[i + 1..i + 1 + |text|] == content[i..i + |w|][1..1 + |text|] == w[1..1 + |text|] == text;
  }

  lemma CommentPlaces(content: string, i: nat, text: string)
    requires Proper(Comment(text))
    requires var n := |PieceText(Comment(text))|; i + n <= |content| && content[i..i + n] == PieceText(Comment(text))
    ensures |PieceText(Comment(text))| == |text| + 3
    ensures content[i] == '/' && content[i + 1] == '/' && content[i + 2 + |text|] == '\n'
    ensures forall k :: i + 2 <= k < i + 2 + |text| ==> content[k] != '\n'
  {
    var w := "//" + text + "\n";
    var here := content[i..i + |w|];
    assert here == w && w[0] == '/' && w[1] == '/' && w[2 + |text|] == '\n';
    assert content[i] == here[0] && content[i + 1] == here[1] && content[i + 2 + |text|] == here[2 + |text|];
    forall k | i + 2 <= k < i + 2 + |text|
      ensures content[k] != '\n'
    {
      assert content[k] == here[k - i] == text[k - i - 2] && text[k - i - 2] in text;
    }
  }

  lemma {:induction false} RemovalFrom(content: string, i: nat, pieces: seq<Piece>, last: string)
    requires forall k :: 0 <= k < |pieces| ==> Proper(pieces[k])
    requires i <= |content| && content[i..] == PiecesText(pieces) + last && (i > 0 ==> content[i - 1] != '\\')
    requires last == "" || ("//" <= last && '\n' !in last)
    ensures Uncommented(content, i, false) == Kept(pieces)
    decreases |pieces|
  {
    hide Uncommented, PieceText, PiecesText, Kept, Proper;
    if pieces == [] {
      NoPieces();
      assert "" + last == last;
      LastComment(content, i, last);
    } else {
      var p, rest := pieces[0], PiecesText(pieces[1..]) + last;
      FirstPiece(pieces);
      ConcatAssociative(PieceText(p), PiecesText(pieces[1..]), last);
      SplitAt(content, i, PieceText(p), rest);
      KeepPiece(content, i, p);
      RemovalFrom(content, i + |PieceText(p)|, pieces[1..], last);
    }
  }

  lemma NoPieces()
    ensures PiecesText([]) == "" && Kept([]) == ""
  {
  }

  lemma FirstPiece(pieces: seq<Piece>)
    requires pieces != []
    ensures PiecesText(pieces) == PieceText(pieces[0]) + PiecesText(pieces[1..])
    ensures Kept(pieces) == (if pieces[0].Comment? then "" else PieceText(pieces[0])) + Kept(pieces[1..])
  {
    hide PieceText;
  }

  lemma LastComment(content: string, i: nat, last: string)
    requires i <= |content| && content[i..] == last && (last == "" || ("//" <= last && '\n' !in last))
    ensures Uncommented(content, i, false) == ""
  {
    if last != "" {
      assert content[i] == content[i..][0] && content[i + 1] == content[i..][1];
      assert forall k :: i <= k < |content| ==> content[k] == last[k - i] && last[k - i] in last;
      RemoveComment(content, i, |content|);
    }
  }

  /**
   Of a text made of code, strings and line comments, with or without a newline behind the last one, exactly the comments
   are removed, each with its newline; slashes inside strings stay.
  */
  lemma RemovalIsExact(pieces: seq<Piece>, last: string)
    requires forall i :: 0 <= i < |pieces| ==> Proper(pieces[i])
    requires last == "" || ("//" <= last && '\n' !in last)
    ensures Uncommented(PiecesText(pieces) + last, 0, false) == Kept(pieces)
  {
    var content := PiecesText(pieces) + last;
    assert content[0..] == content;
    RemovalFrom(content, 0, pieces, last);
  }

  function Quoted(key: string): string {
    "\"" + key + "\""
  }

  /** The text between the colon behind the quoted key and the next comma, or the next brace if there is no comma, or the end. */
  function ExtractValue(text: string, key: string): string {
    match Find(text, Quoted(key))
    case None => ""
    case Some(pos) =>
      FindIsFirst(text, Quoted(key));
      match Find(text[pos..], ":")
      case None => ""
      case Some(i) =>
        FindIsFirst(text[pos..], ":");
        Trim(UpToEnd(text[pos..][i..][1..]))
  }

  /** Without the quoted key there is no value. */
  lemma ExtractMissing(text: string, key: string)
    requires forall i :: 0 <= i <= |text| ==> !(Quoted(key) <= text[i..])
    ensures ExtractValue(text, key) == ""
  {
    FindIsFirst(text, Quoted(key));
  }

  /**
   The value is what is written between the first colon behind the first quoted key and the next comma, or the next brace
   where no comma follows, without the blanks round it.
  */
  lemma ExtractBehindKey(front: string, key: string, gap: string, value: string, rest: string)
    requires ':' !in key && ':' !in gap && ',' !in value
    requires rest == "" || rest[0] == ',' || (rest[0] == '}' && ',' !in rest)
    requires rest == "" || rest[0] == '}' ==> '}' !in value
    requires forall i :: 0 <= i < |front| ==> !(Quoted(key) <= (front + (Quoted(key) + gap + ":" + value + rest))[i..])
    ensures ExtractValue(front + (Quoted(key) + gap + ":" + value + rest), key) == Trim(value)
  {
    hide Find, Trim, UpToEnd;
    var behind := Quoted(key) + gap + ":" + value + rest;
    var text := front + behind;
    FindSkips(front, behind, Quoted(key));
    FindHere(behind, Quoted(key));
    assert text[|front|..] == behind;
    assert behind == (Quoted(key) + gap) + [':'] + (value + rest);
    FindChar(Quoted(key) + gap, ':', value + rest);
    DropKey(Quoted(key) + gap, value + rest);
    ValueUpToEnd(value, rest);
  }

  lemma FindHere(s: string, p: string)
    requires p <= s
    ensures Find(s, p) == Some(0)
  {
  }

  lemma ValueUpToEnd(value: string, rest: string)
    requires ',' !in value
    requires rest == "" || rest[0] == ',' || (rest[0] == '}' && ',' !in rest)
    requires rest == "" || rest[0] == '}' ==> '}' !in value
    ensures UpToEnd(value + rest) == value
  {
    hide Find;
    if rest == "" {
      assert value + rest == value;
      FindAbsent(value, ',');
      FindAbsent(value, '}');
    } else {
      assert value + rest == value + [rest[0]] + rest[1..];
      FindChar(value, rest[0], rest[1..]);
      if rest[0] == '}' {
        FindAbsent(value + rest, ',');
      }
    }
  }

  function UpToEnd(rest: string): string {
    FindIsFirst(rest, ",");
    FindIsFirst(rest, "}");
    match Find(rest, ",")
    case Some(comma) => rest[..comma]
    case None =>
      match Find(rest, "}")
      case Some(brace) => rest[..brace]
      case None => rest
  }

  datatype Entry = Entry(key: string, value: string)

  predicate IsPlain(c: char) {
    'a' <= c <= 'z' || '0' <= c <= '9' || c == '_'
  }

  ghost predicate Plain(s: string) {
    s != "" && forall c :: c in s ==> IsPlain(c)
  }

  /** One line of a saved file, without what ends it. */
  function Item(e: Entry): string {
    "  " + Quoted(e.key) + ": " + e.value
  }

  function Items(entries: seq<Entry>): string {
    if entries == [] then "}\n"
    else Item(entries[0]) + (if |entries| == 1 then "\n" else ",\n") + Items(entries[1..])
  }

  function Render(entries: seq<Entry>): string {
    "{\n" + Items(entries)
  }

  ghost predicate WellFormed(entries: seq<Entry>) {
    && (forall i :: 0 <= i < |entries| ==> Plain(entries[i].key) && Plain(entries[i].value))
    && (forall i, j :: 0 <= i < j < |entries| ==> entries[i].key != entries[j].key)
  }

  /** Where a quoted key occurs in a line, it is the key of the line. */
  lemma MatchIsOwn(e: Entry, end: string, rest: string, key: string, i: nat)
    requires Plain(e.key) && Plain(e.value) && Plain(key) && end in {"\n", ",\n"}
    requires i < |Item(e) + end| && Quoted(key) <= (Item(e) + end + rest)[i..]
    ensures key == e.key
  {
    var text, p, n := Item(e) + end + rest, Quoted(key), |e.key|;
    QuotesInItem(e, end, rest, i) by {
      assert text[i] == text[i..][0] == p[0];
    }
    assert text[i + 1] == text[i..][1] == p[1] == key[0] && key[0] in key;
    assert text[4 + n] == ':' && !IsPlain(':');
    assert i == 2;
    assert text[2..] == Quoted(e.key) + (": " + e.value + end + rest);
    QuotesDelimit(key, e.key, ": " + e.value + end + rest);
  }

  lemma QuotesDelimit(a: string, b: string, rest: string)
    requires Plain(a) && Plain(b) && Quoted(a) <= Quoted(b) + rest
    ensures a == b
  {
    var text := Quoted(b) + rest;
    assert forall k :: 0 <= k < |a| ==> text[k + 1] == Quoted(a)[k + 1] == a[k] && a[k] in a;
    assert forall k :: 0 <= k < |b| ==> text[k + 1] == b[k] && b[k] in b;
    assert text[|a| + 1] == Quoted(a)[|a| + 1] == '"' && text[|b| + 1] == '"';
  }

  /** So a quoted key does not occur in a line for another key. */
  lemma NotInItem(e: Entry, end: string, rest: string, key: string, i: nat)
    requires Plain(e.key) && Plain(e.value) && Plain(key) && e.key != key && end in {"\n", ",\n"}
    requires i < |Item(e) + end|
    ensures !(Quoted(key) <= (Item(e) + end + rest)[i..])
  {
    if Quoted(key) <= (Item(e) + end + rest)[i..] {
      MatchIsOwn(e, end, rest, key, i);
    }
  }

  /** The only quotes of a line are those around its key. */
  lemma QuotesInItem(e: Entry, end: string, rest: string, i: nat)
    requires Plain(e.key) && Plain(e.value) && end in {"\n", ",\n"}
    requires i < |Item(e) + end| && (Item(e) + end + rest)[i] == '"'
    ensures i == 2 || i == 3 + |e.key|
  {
    var text := Item(e) + end + rest;
    var n := |e.key|;
    assert forall k :: 0 <= k < n ==> text[3 + k] == e.key[k] && e.key[k] in e.key;
    assert forall k :: 0 <= k < |e.value| ==> text[6 + n + k] == e.value[k] && e.value[k] in e.value;
  }

  lemma {:induction false} FindInItems(entries: seq<Entry>, k: nat)
    requires WellFormed(entries) && k < |entries|
    ensures var rest := Items(entries[k..]);
            var found := Find(Items(entries), Quoted(entries[k].key));
            found.Some? && found.value <= |Items(entries)| && Items(entries)[found.value..] == rest[2..] && |rest| > 2
  {
    var e := entries[0];
    var end := if |entries| == 1 then "\n" else ",\n";
    var key := entries[k].key;
    if k == 0 {
      assert entries[0..] == entries;
      FindOwn(e, end, Items(entries[1..]));
    } else {
      hide Find, Item, Quoted;
      var rest := Items(entries[1..]);
      FindPastItem(e, end, rest, key);
      FindInItems(entries[1..], k - 1);
      assert entries[1..][k - 1..] == entries[k..];
      DropBehind(Item(e) + end, rest, Find(rest, Quoted(key)).value);
    }
  }

  lemma FindPastItem(e: Entry, end: string, rest: string, key: string)
    requires Plain(e.key) && Plain(e.value) && Plain(key) && e.key != key && end in {"\n", ",\n"}
    ensures Find(Item(e) + end + rest, Quoted(key)) ==
            match Find(rest, Quoted(key)) case None => None case Some(i) => Some(|Item(e) + end| + i)
  {
    forall i | 0 <= i < |Item(e) + end|
      ensures !(Quoted(key) <= (Item(e) + end + rest)[i..])
    {
      NotInItem(e, end, rest, key, i);
    }
    FindSkips(Item(e) + end, rest, Quoted(key));
  }

  lemma DropBehind(a: string, b: string, i: nat)
    requires i <= |b|
    ensures (a + b)[|a| + i..] == b[i..]
  {
  }

  lemma FindOwn(e: Entry, end: string, rest: string)
    ensures Find(Item(e) + end + rest, Quoted(e.key)) == Some(2)
  {
    var tail := Quoted(e.key) + ": " + e.value + end + rest;
    assert Item(e) + end + rest == "  " + tail;
    forall i | 0 <= i < |"  "|
      ensures !(Quoted(e.key) <= ("  " + tail)[i..])
    {
      assert ("  " + tail)[i..][0] == ' ';
    }
    FindSkips("  ", tail, Quoted(e.key));
    assert Quoted(e.key) <= tail;
  }

  /** Every value is found behind its own key. */
  lemma ExtractFromRender(entries: seq<Entry>, k: nat)
    requires WellFormed(entries) && k < |entries|
    ensures ExtractValue(Render(entries), entries[k].key) == entries[k].value
  {
    hide Find, Items, Quoted, Trim, UpToEnd;
    var e, items, text := entries[k], Items(entries), Render(entries);
    FindPastBrace(items, e.key);
    FindInItems(entries, k);
    var found := Find(items, Quoted(e.key)).value;
    DropBehind("{\n", items, found);
    ValueBehindKey(entries[k..]);
  }

  lemma FindPastBrace(items: string, key: string)
    ensures Find("{\n" + items, Quoted(key)) ==
            match Find(items, Quoted(key)) case None => None case Some(i) => Some(2 + i)
  {
    forall i | 0 <= i < |"{\n"|
      ensures !(Quoted(key) <= ("{\n" + items)[i..])
    {
      assert ("{\n" + items)[i..][0] == "{\n"[i];
    }
    FindSkips("{\n", items, Quoted(key));
  }

  lemma DropKey(a: string, b: string)
    ensures (a + [':'] + b)[|a|..][1..] == b
  {
  }

  lemma ItemBehindIndent(e: Entry, end: string)
    ensures |Item(e)| > 2 && (Item(e) + end)[2..] == Quoted(e.key) + [':'] + (" " + e.value + end)
  {
  }

  /** What comes behind the first item. */
  function Behind(entries: seq<Entry>): string
    requires entries != []
  {
    (if |entries| == 1 then "\n" else ",\n") + Items(entries[1..])
  }

  lemma ItemsFirst(entries: seq<Entry>)
    requires entries != []
    ensures Items(entries) == Item(entries[0]) + Behind(entries)
    ensures if |entries| == 1 then Behind(entries) == "\n}\n" else Behind(entries) != "" && Behind(entries)[0] == ','
  {
    hide Item;
    ConcatAssociative(Item(entries[0]), if |entries| == 1 then "\n" else ",\n", Items(entries[1..]));
    if |entries| == 1 {
      assert entries[1..] == [];
    }
  }

  lemma ValueBehindKey(entries: seq<Entry>)
    requires entries != [] && Plain(entries[0].key) && Plain(entries[0].value)
    ensures |Items(entries)| > 2
    ensures var rest := Items(entries)[2..];
            var colon := Find(rest, ":");
            colon.Some? && colon.value < |rest| && Trim(UpToEnd(rest[colon.value..][1..])) == entries[0].value
  {
    hide Find, Trim, UpToEnd, Items, Item, Behind;
    var e, end := entries[0], Behind(entries);
    ItemsFirst(entries);
    ItemBehindIndent(e, end);
    assert ':' !in e.key;
    FindChar(Quoted(e.key), ':', " " + e.value + end);
    DropKey(Quoted(e.key), " " + e.value + end);
    EndOfValue(e.value, end, |entries| == 1);
  }

  lemma EndOfValue(value: string, end: string, last: bool)
    requires Plain(value) && (if last then end == "\n}\n" else |end| > 0 && end[0] == ',')
    ensures Trim(UpToEnd(" " + value + end)) == value
  {
    var rest := " " + value + end;
    assert ',' !in value && '}' !in value;
    assert value[0] in value && value[|value| - 1] in value;
    if last {
      var up := " " + value + "\n";
      assert rest == up + ['}'] + "\n";
      FindAbsent(rest, ',');
      FindChar(up, '}', "\n");
      assert UpToEnd(rest) == up;
      TrimOf(" ", value, "\n");
    } else {
      var up := " " + value;
      assert rest == up + [','] + end[1..];
      FindChar(up, ',', end[1..]);
      assert UpToEnd(rest) == up;
      assert up + "" == up;
      TrimOf(" ", value, "");
    }
  }

  lemma {:induction false} NoSlashInItems(entries: seq<Entry>)
    requires WellFormed(entries)
    ensures '/' !in Items(entries)
  {
    if entries != [] {
      var e := entries[0];
      NoSlashInItems(entries[1..]);
      assert '/' !in e.key && '/' !in e.value;
      assert '/' !in Item(e);
    }
  }

  /** Whatever was saved is found again, also after the removal of comments. */
  lemma SavedIsFound(entries: seq<Entry>, k: nat)
    requires WellFormed(entries) && k < |entries|
    ensures ExtractValue(Uncommented(Render(entries), 0, false), entries[k].key) == entries[k].value
  {
    NoSlashInItems(entries);
    var text := Render(entries);
    assert '/' !in text;
    NothingToRemove(text, 0, false);
    assert text[0..] == text;
    ExtractFromRender(entries, k);
  }
}
