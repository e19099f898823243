/** RCS edit scripts: their text form, what applying one means, and the
    hunk view in which reversing one is easy to state. */
module EditScript {
  import opened Lines
  import opened CNumbers

  // ---------------------------------------------------------------- commands

  /** `a where count` followed by its text, and `d where count`. */
  datatype Cmd = Add(where: int, text: seq<Line>) | Del(where: int, count: int)

  datatype Header = Header(add: bool, where: int, count: int)

  /** The bounds a script keeps on the line numbers still to come. */
  datatype Guard = Guard(lasta: int, lastd: int)

  const START := Guard(0, 0)

  /** The C string in a line: it ends at the newline or at an embedded NUL. */
  function CString(l: Line): string {
    if l == "" || l[0] == '\n' || l[0] == '\0' then "" else [l[0]] + CString(l[1..])
  }

  /** The command on a line: a letter, a line number and a positive count. */
  function ParseHeader(s: string): (r: Option<Header>)
    ensures r.Some? ==> 0 <= r.value.where <= LONG_MAX && 0 < r.value.count <= LONG_MAX
    ensures r.Some? ==> s != "" && s[0] == if r.value.add then 'a' else 'd'
  {
    if s == "" || (s[0] != 'a' && s[0] != 'd') then None
    else
      var w := Strtol(s[1..]);
      if w.range || w.value < 0 || w.rest == "" || w.rest[0] != ' ' then None
      else
        var c := Strtol(w.rest[1..]);
        if c.range || c.value <= 0 || c.rest != "" then None
        else Some(Header(s[0] == 'a', w.value, c.value))
  }

  predicate InOrder(h: Header, g: Guard) {
    if h.add then h.where >= g.lasta else h.where >= g.lasta && h.where >= g.lastd
  }

  function NextGuard(h: Header, g: Guard): Guard {
    if h.add then Guard(h.where + 1, g.lastd) else Guard(h.where, h.where + h.count)
  }

  function HeaderOf(c: Cmd): Header {
    match c
    case Add(w, t) => Header(true, w, |t|)
    case Del(w, n) => Header(false, w, n)
  }

  predicate WellFormedCmd(c: Cmd) {
    var h := HeaderOf(c);
    0 <= h.where <= LONG_MAX && 0 < h.count <= LONG_MAX
  }

  /** The commands that pass the order check one after the other. */
  predicate Accepts(cmds: seq<Cmd>, g: Guard) {
    cmds == [] ||
    (WellFormedCmd(cmds[0]) && InOrder(HeaderOf(cmds[0]), g)
     && Accepts(cmds[1..], NextGuard(HeaderOf(cmds[0]), g)))
  }

  // ----------------------------------------------------------------- parsing

  datatype End = Eof | Dot | DotPlus

  datatype Script = Script(cmds: seq<Cmd>, end: End, blank: bool)

  /** In checkout mode a leading dot of a text line is a quoting dot. */
  function Unquote(l: Line, comode: bool): Line {
    if comode && l != "" && l[0] == '.' then l[1..] else l
  }

  function UnquoteAll(ls: seq<Line>, comode: bool): seq<Line> {
    seq(|ls|, i requires 0 <= i < |ls| => Unquote(ls[i], comode))
  }

  function Cons(c: Cmd, sc: Option<Script>): Option<Script> {
    match sc
    case None => None
    case Some(s) => Some(s.(cmds := [c] + s.cmds))
  }

  /** The script a reader of `rd` sees, or None when it is not accepted.  One
      blank command line is tolerated (the server's form of an empty commit). */
  function ParseScript(rd: seq<Line>, g: Guard, blank: bool, comode: bool): Option<Script>
    decreases |rd|
  {
    if rd == [] then
      if comode then None else Some(Script([], Eof, blank))
    else
      var s := CString(rd[0]);
      if s == "." then Some(Script([], Dot, blank))
      else if s == ".+" then Some(Script([], DotPlus, blank))
      else if s == "" then
        if blank then None else ParseScript(rd[1..], g, true, comode)
      else
        match ParseHeader(s)
        case None => None
        case Some(h) =>
          if !InOrder(h, g) then None
          else if !h.add then
            Cons(Del(h.where, h.count), ParseScript(rd[1..], NextGuard(h, g), blank, comode))
          else if |rd| - 1 < h.count then None
          else
            Cons(Add(h.where, UnquoteAll(rd[1..1 + h.count], comode)),
                 ParseScript(rd[1 + h.count..], NextGuard(h, g), blank, comode))
  }

  /** The commands read before the first line that is not a command: how the
      reverser reads a script.  None when the text of an `a` is cut short. */
  function ReadEdits(rd: seq<Line>, g: Guard): Option<seq<Cmd>>
    decreases |rd|
  {
    if rd == [] then Some([])
    else
      match ParseHeader(CString(rd[0]))
      case None => Some([])
      case Some(h) =>
        if !InOrder(h, g) then Some([])
        else if h.add && |rd| - 1 < h.count then None
        else
          var n := if h.add then 1 + h.count else 1;
          var c := if h.add then Add(h.where, rd[1..n]) else Del(h.where, h.count);
          match ReadEdits(rd[n..], NextGuard(h, g))
          case None => None
          case Some(cs) => Some([c] + cs)
  }

  // ---------------------------------------------------------------- applying

  function Max(a: int, b: int): int { if a < b then b else a }

  /** The lines obtained by running `cmds` on `orig` once `pos` of its lines
      have been consumed; None when a command runs off its end. */
  function Run(cmds: seq<Cmd>, orig: seq<Line>, pos: nat): Option<seq<Line>>
    requires pos <= |orig|
  {
    if cmds == [] then Some(orig[pos..])
    else
      var to := Max(pos, if cmds[0].Add? then cmds[0].where else cmds[0].where - 1);
      var next := if cmds[0].Add? then to else to + Max(0, cmds[0].count);
      if next > |orig| then None
      else
        match Run(cmds[1..], orig, next)
        case None => None
        case Some(out) =>
          Some(orig[pos..to] + (if cmds[0].Add? then cmds[0].text else []) + out)
  }

  /** What a run still has to write, and whether the last byte is to be cut
      off, when `rd` is left of the script and `pos` lines of `orig` are used. */
  function Continue(rd: seq<Line>, g: Guard, blank: bool, comode: bool, orig: seq<Line>, pos: nat)
      : Option<(seq<Line>, bool)>
    requires pos <= |orig|
  {
    match ParseScript(rd, g, blank, comode)
    case None => None
    case Some(sc) =>
      match Run(sc.cmds, orig, pos)
      case None => None
      case Some(out) => Some((out, comode && sc.end == DotPlus && !sc.blank))
  }

  function Prepend(out: seq<Line>, r: Option<(seq<Line>, bool)>): Option<(seq<Line>, bool)> {
    match r
    case None => None
    case Some(p) => Some((out + p.0, p.1))
  }

  /** The bytes of a finished run. */
  function Finish(r: Option<(seq<Line>, bool)>): Option<string> {
    match r
    case None => None
    case Some(p) =>
      var bytes := Concat(p.0);
      if !p.1 then Some(bytes)
      else if bytes == "" then None
      else Some(bytes[..|bytes| - 1])
  }

  /** What `diff_apply` should write: None stands for its error return. */
  function Apply(rd: seq<Line>, orig: seq<Line>, comode: bool): Option<string> {
    Finish(Continue(rd, START, false, comode, orig, 0))
  }

  // ------------------------------------------------------------------- hunks

  /** After `at` lines of the old text, `del` lines go and `ins` come. */
  datatype Hunk = Hunk(at: int, del: int, ins: seq<Line>)

  /** Line numbers start at one, and an `a` after a `d` is not strictly inside
      the deleted block. */
  predicate Standard(cmds: seq<Cmd>) {
    cmds == [] ||
    ((cmds[0].Del? ==> cmds[0].where >= 1)
     && (|cmds| > 1 && cmds[0].Del? && cmds[1].Add? ==> cmds[1].where >= cmds[0].where + cmds[0].count - 1)
     && Standard(cmds[1..]))
  }

  predicate Replaces(c: Cmd, d: Cmd) {
    c.Del? && d.Add? && d.where == c.where + c.count - 1
  }

  function Hunks(cmds: seq<Cmd>): seq<Hunk> {
    if cmds == [] then []
    else
      match cmds[0]
      case Add(w, t) => [Hunk(w, 0, t)] + Hunks(cmds[1..])
      case Del(w, n) =>
        if |cmds| > 1 && Replaces(cmds[0], cmds[1]) then
          [Hunk(w - 1, n, cmds[1].text)] + Hunks(cmds[2..])
        else [Hunk(w - 1, n, [])] + Hunks(cmds[1..])
  }

  predicate GoodHunk(h: Hunk) {
    0 <= h.at && 0 <= h.del && (h.del > 0 || h.ins != [])
  }

  /** What the order check of a script means for neighbouring hunks. */
  predicate Follows(h: Hunk, k: Hunk) {
    k.at >= h.at + h.del && (k.del == 0 ==> k.at > h.at + h.del)
  }

  predicate Chain(hs: seq<Hunk>) {
    hs == [] || (GoodHunk(hs[0]) && (|hs| == 1 || Follows(hs[0], hs[1])) && Chain(hs[1..]))
  }

  /** Does a delete-only hunk start right where a deleting hunk ended? */
  predicate Abuts(h: Hunk, k: Hunk) {
    h.del > 0 && k.ins == [] && k.at == h.at + h.del
  }

  /** The condition under which a script can be reversed: checked on the script
      alone, hunk by hunk. */
  predicate Separated(hs: seq<Hunk>) {
    |hs| <= 1 || (!Abuts(hs[0], hs[1]) && Separated(hs[1..]))
  }

  /** Every hunk lies inside a text of `size` lines. */
  predicate Fit(hs: seq<Hunk>, size: int) {
    hs == [] || (0 <= hs[0].at <= hs[0].at + hs[0].del <= size && Fit(hs[1..], size))
  }

  /** The hunks touch the old text left to right, none before line `pos`. */
  predicate Ascending(hs: seq<Hunk>, pos: int) {
    hs == [] || (pos <= hs[0].at && GoodHunk(hs[0]) && Ascending(hs[1..], hs[0].at + hs[0].del))
  }

  /** The new text from line `pos` of the old one on. */
  function Patch(hs: seq<Hunk>, orig: seq<Line>, pos: int): Option<seq<Line>>
    requires 0 <= pos <= |orig| && Ascending(hs, pos)
  {
    if hs == [] then Some(orig[pos..])
    else
      var h := hs[0];
      if h.at + h.del > |orig| then None
      else
        match Patch(hs[1..], orig, h.at + h.del)
        case None => None
        case Some(out) => Some(orig[pos..h.at] + h.ins + out)
  }

  /** The hunks that undo `hs`; `off` is how many more lines the old text has
      had than the new one so far. */
  function Undo(hs: seq<Hunk>, orig: seq<Line>, off: int): seq<Hunk>
    requires Fit(hs, |orig|)
  {
    if hs == [] then []
    else
      var h := hs[0];
      [Hunk(h.at - off, |h.ins|, orig[h.at..h.at + h.del])] + Undo(hs[1..], orig, off + h.del - |h.ins|)
  }

  // ---------------------------------------------------------------- printing

  function HeaderLine(kind: char, where: int, count: int): Line {
    [kind] + Decimal(where) + (" " + Decimal(count) + "\n")
  }

  function PrintCmd(c: Cmd): seq<Line> {
    match c
    case Add(w, t) => [HeaderLine('a', w, |t|)] + t
    case Del(w, n) => [HeaderLine('d', w, n)]
  }

  function Print(cmds: seq<Cmd>): seq<Line> {
    if cmds == [] then [] else PrintCmd(cmds[0]) + Print(cmds[1..])
  }

  function HunkCmds(h: Hunk): seq<Cmd> {
    (if h.del > 0 then [Del(h.at + 1, h.del)] else []) +
    (if h.ins != [] then [Add(h.at + h.del, h.ins)] else [])
  }

  /** The commands of a list of hunks: deletes before adds. */
  function HunksCmds(hs: seq<Hunk>): seq<Cmd> {
    if hs == [] then [] else HunkCmds(hs[0]) + HunksCmds(hs[1..])
  }
}
