/** What the block parser recognises in a single line (or, for tables, in two). */
module LineRecognizers {
  import opened Text
  import opened DocumentTypes
  import opened InlineParser

  /** Length of the run of `c` a text starts with. */
  function RunLength(s: string, c: char): (n: nat)
    ensures n <= |s|
  {
    if s != "" && s[0] == c then 1 + RunLength(s[1..], c) else 0
  }

  // ---- Code fences ----

  datatype Fence = Fence(marker: char, length: nat, language: string)

  /** At least three backticks or tildes, then no backtick on the rest of the line. */
  function MatchFenceStart(line: string): Option<Fence> {
    var body := TrimStart(line);
    if body == "" || (body[0] != '`' && body[0] != '~') then None
    else
      var n := RunLength(body, body[0]);
      if n < 3 || '`' in body[n..] then None else Some(Fence(body[0], n, Trim(body[n..])))
  }

  /** Nothing but the marker, at least as often as in the opening fence. */
  predicate IsFenceEnd(line: string, fence: Fence) {
    var t := Trim(line);
    |t| >= fence.length && All(t, fence.marker)
  }

  // ---- Rules and headings (given a trimmed line) ----

  function CountOf(s: string, c: char): nat {
    if s == "" then 0 else (if s[0] == c then 1 else 0) + CountOf(s[1..], c)
  }

  predicate OnlySpaceAnd(s: string, c: char) {
    forall i | 0 <= i < |s| :: s[i] == c || IsSpace(s[i])
  }

  predicate IsHorizontalRule(trimmed: string) {
    && trimmed != ""
    && (trimmed[0] == '*' || trimmed[0] == '-' || trimmed[0] == '_')
    && OnlySpaceAnd(trimmed, trimmed[0])
    && CountOf(trimmed, trimmed[0]) >= 3
  }

  /** White space, hash signs, white space: what a heading may end with. */
  predicate IsHeadingTail(s: string) {
    var t := TrimStart(s);
    IsBlank(t[RunLength(t, '#')..])
  }

  /** The shortest heading text, of length at least `n`, that leaves nothing but a tail. */
  function HeadingTextLength(rest: string, n: nat): (r: nat)
    requires n <= |rest|
    ensures n <= r <= |rest|
    decreases |rest| - n
  {
    if n == |rest| || IsHeadingTail(rest[n..]) then n else HeadingTextLength(rest, n + 1)
  }

  function MatchHeading(trimmed: string): Option<(nat, string)> {
    var level := RunLength(trimmed, '#');
    var afterMarker := trimmed[level..];
    var rest := TrimStart(afterMarker);
    if level == 0 || level > 6 || |rest| == |afterMarker| || rest == "" then None
    else
      var text := rest[..HeadingTextLength(rest, 1)];
      if DotOnly(text) then Some((level, text)) else None
  }

  // ---- List items ----

  datatype ItemKind = Bullet | Check(checked: bool) | Numbered(number: nat)

  datatype Marker = Marker(indent: nat, kind: ItemKind, content: string)

  /** White space and then text up to the end of the line. Text of nothing but white space is
      allowed, as long as one white space character is left for the separator. */
  function MatchSeparatedText(s: string): Option<string> {
    var n := LeadingSpaces(s);
    if n == 0 then None
    else if n < |s| then (if DotOnly(s[n..]) then Some(TrimEnd(s[n..])) else None)
    else if n >= 2 && !IsLineTerminator(s[n - 1]) then Some("")
    else None
  }

  predicate IsBulletSign(c: char) {
    c == '-' || c == '*' || c == '+'
  }

  /** The bracketed box of a task, given what follows the bullet sign. */
  function MatchTask(afterSign: string): Option<(ItemKind, string)> {
    var box := TrimStart(afterSign);
    if |box| == |afterSign| || |box| < 3 || box[0] != '[' || box[2] != ']' then None
    else if box[1] != ' ' && box[1] != 'x' && box[1] != 'X' then None
    else
      match MatchSeparatedText(box[3..])
      case Some(text) => Some((Check(box[1] != ' '), text))
      case None => None
  }

  function DigitsAtStart(s: string): (n: nat)
    ensures n <= |s|
    ensures forall i | 0 <= i < n :: IsDigit(s[i])
    ensures n < |s| ==> !IsDigit(s[n])
  {
    if s != "" && IsDigit(s[0]) then 1 + DigitsAtStart(s[1..]) else 0
  }

  function NumberOf(digits: string): nat
    requires forall i | 0 <= i < |digits| :: IsDigit(digits[i])
  {
    if digits == "" then 0
    else
      assert IsDigit(digits[|digits| - 1]);
      10 * NumberOf(digits[..|digits| - 1]) + (digits[|digits| - 1] as int - '0' as int)
  }

  function MatchNumbered(body: string): Option<(ItemKind, string)> {
    var n := DigitsAtStart(body);
    if n == 0 || n > 9 || n == |body| || (body[n] != '.' && body[n] != ')') then None
    else
      match MatchSeparatedText(body[n + 1..])
      case Some(text) => Some((Numbered(NumberOf(body[..n])), text))
      case None => None
  }

  /** A list item without its indentation. */
  function MatchItemBody(body: string): Option<(ItemKind, string)> {
    if body != "" && IsBulletSign(body[0]) then
      if MatchTask(body[1..]).Some? then MatchTask(body[1..])
      else
        match MatchSeparatedText(body[1..])
        case Some(text) => Some((Bullet, text))
        case None => None
    else MatchNumbered(body)
  }

  /** Width of a text when a tab counts as four columns. */
  function CountIndent(s: string): nat {
    if s == "" then 0 else (if s[0] == '\t' then TAB_WIDTH else 1) + CountIndent(s[1..])
  }

  function MatchListItem(line: string): Option<Marker> {
    var n := LeadingSpaces(line);
    match MatchItemBody(line[n..])
    case Some((kind, text)) => Some(Marker(CountIndent(line[..n]), kind, text))
    case None => None
  }

  // ---- Quotes, images, block starts ----

  predicate IsBlockquote(line: string) {
    var body := TrimStart(line);
    body != "" && body[0] == '>'
  }

  /** A quote line without its sign and one white space character after it. */
  function UnquoteLine(line: string): string {
    if !IsBlockquote(line) then line
    else
      var body := TrimStart(line)[1..];
      if body != "" && IsSpace(body[0]) then body[1..] else body
  }

  /** An image that is the whole trimmed line: its caption and its target. */
  function MatchStandaloneImage(trimmed: string): Option<(string, string)> {
    if |trimmed| < 2 || trimmed[0] != '!' || trimmed[1] != '[' then None
    else
      var j := RunEnd(trimmed, 2, ']');
      if j + 2 > |trimmed| || trimmed[j] != ']' || trimmed[j + 1] != '(' then None
      else
        var k := RunEnd(trimmed, j + 2, ')');
        if k == j + 2 || k + 1 != |trimmed| || trimmed[k] != ')' then None
        else Some((trimmed[2..j], NormalizeLinkTarget(trimmed[j + 2..k])))
  }

  predicate StartsStructuredBlock(line: string) {
    || IsBlank(line)
    || MatchFenceStart(line).Some?
    || IsHorizontalRule(Trim(line))
    || MatchHeading(Trim(line)).Some?
    || MatchListItem(line).Some?
    || IsBlockquote(line)
  }

  predicate StartsBlock(line: string) {
    StartsStructuredBlock(line) || MatchStandaloneImage(Trim(line)).Some?
  }

  // ---- Tables ----

  function TableCells(line: string): (cells: seq<string>)
    ensures cells != []
  {
    var t := Trim(line);
    var left := if t != "" && t[0] == '|' then t[1..] else t;
    var both := if left != "" && left[|left| - 1] == '|' then left[..|left| - 1] else left;
    Split(both, '|')
  }

  /** An optional colon, at least three dashes, an optional colon. */
  predicate IsAlignmentCell(cell: string) {
    var left := if cell != "" && cell[0] == ':' then cell[1..] else cell;
    var dashes := if left != "" && left[|left| - 1] == ':' then left[..|left| - 1] else left;
    |dashes| >= 3 && All(dashes, '-')
  }

  predicate IsAlignmentLine(line: string) {
    forall cell <- TableCells(line) :: IsAlignmentCell(Trim(cell))
  }

  predicate IsTableDataLine(line: string) {
    '|' in Trim(line) && !StartsStructuredBlock(line)
  }

  predicate IsTableStart(lines: seq<string>) {
    |lines| > 1 && IsTableDataLine(lines[0]) && IsAlignmentLine(lines[1])
  }

  function ParseAlignment(value: string): Alignment {
    var left := value != "" && value[0] == ':';
    var right := value != "" && value[|value| - 1] == ':';
    if left && right then AlignCenter else if left then AlignLeft else if right then AlignRight else AlignLeft
  }

  /** The last non-empty path segment of a URL, before any query or fragment. */
  function FileName(url: string): string {
    LastNonEmpty(Split(Split(Split(url, '?')[0], '#')[0], '/'))
  }

  function LastNonEmpty(parts: seq<string>): string {
    if parts == [] then ""
    else if parts[|parts| - 1] != "" then parts[|parts| - 1]
    else LastNonEmpty(parts[..|parts| - 1])
  }
}
