/** A git worktree as three path-to-content maps, with the listings that the tool
    wrapper reads from git: `git status --porcelain -z -uall` and
    `git diff --name-only`. */
module GitModel {
  import opened Options
  import opened Splitting

  type Path = string
  type Sha = string
  type Blob = string
  type Tree = map<Path, Blob>

  const CONFLICT_CODES: set<string> := {"DD", "AU", "UD", "UA", "DU", "AA", "UU"}

  type ConflictCode = code: string | code in CONFLICT_CODES witness "UU"

  /** An index entry without content of its own: a path that is only intended to be added,
      or one left unmerged by a conflict. */
  datatype Odd = Intended | Unmerged(code: ConflictCode)

  /** `commits` is the object store: the tree of every commit. `hidden` are the paths whose
      working file git has been told not to look at: by an index flag such as
      assume-unchanged, or by an exclude pattern for a file that is not tracked. */
  datatype Repo = Repo(
    commits: map<Sha, Tree>, head: Sha, index: Tree, work: Tree, hidden: set<Path>, odd: map<Path, Odd>)

  function TreeOf(commits: map<Sha, Tree>, sha: Sha): Tree {
    if sha in commits then commits[sha] else map[]
  }

  function Head(r: Repo): Tree {
    TreeOf(r.commits, r.head)
  }

  function At(t: Tree, p: Path): Option<Blob> {
    if p in t then Some(t[p]) else None
  }

  /** The content that the index has for a path. */
  function Staged(r: Repo, p: Path): Option<Blob> {
    if p in r.odd then None else At(r.index, p)
  }

  predicate Dirty(r: Repo, p: Path) {
    p in r.odd || At(Head(r), p) != Staged(r, p) || Staged(r, p) != At(r.work, p)
  }

  /** The working file as git sees it. */
  function Seen(r: Repo, p: Path): Option<Blob> {
    if p in r.hidden then Staged(r, p) else At(r.work, p)
  }

  predicate IsIntended(r: Repo, p: Path) {
    p in r.odd && r.odd[p].Intended?
  }

  predicate IsUnmerged(r: Repo, p: Path) {
    p in r.odd && r.odd[p].Unmerged?
  }

  predicate SeenDirty(r: Repo, p: Path) {
    || IsUnmerged(r, p)
    || (IsIntended(r, p) && p !in r.hidden)
    || At(Head(r), p) != Staged(r, p)
    || (p !in r.odd && Staged(r, p) != Seen(r, p))
  }

  // ---------------------------------------------------------------------------
  // git status
  // ---------------------------------------------------------------------------

  predicate IsPathName(p: Path) {
    p != "" && NoNul(p)
  }

  predicate NoNul(s: string) {
    Lacks(s, '\0')
  }

  /** One entry of the listing; `orig` is the second path of a rename or copy. */
  datatype Entry = Entry(code: string, path: Path, orig: Path)

  predicate IsRenameOrCopy(letter: char) {
    letter == 'R' || letter == 'C'
  }

  /** What the parser looks at: the first letter. */
  predicate TwoPaths(code: string) {
    code != "" && IsRenameOrCopy(code[0])
  }

  /** What git looks at: either letter. */
  predicate HasOrig(code: string) {
    TwoPaths(code) || (|code| > 1 && IsRenameOrCopy(code[1]))
  }

  function Compare(a: Option<Blob>, b: Option<Blob>): char {
    if a == b then ' ' else if a.None? then 'A' else if b.None? then 'D' else 'M'
  }

  /** The status letter of the index entry. */
  function IndexCode(r: Repo, p: Path): char {
    Compare(At(Head(r), p), Staged(r, p))
  }

  /** The status letter of the working file. */
  function WorkCode(r: Repo, p: Path): char {
    if p in r.odd then if p in r.hidden then ' ' else if p in r.work then 'A' else 'D'
    else if Staged(r, p).Some? then Compare(Staged(r, p), Seen(r, p))
    else ' '
  }

  /** The two status letters of a tracked path. */
  function Code(r: Repo, p: Path): string {
    if IsUnmerged(r, p) then r.odd[p].code else [IndexCode(r, p), WorkCode(r, p)]
  }

  predicate Untracked(r: Repo, p: Path) {
    p !in r.odd && Staged(r, p).None? && Seen(r, p).Some?
  }

  /** The letter of a working file that is gone is blank when another entry shows it as
      renamed. */
  predicate ShowsWork(r: Repo, p: Path, letter: char) {
    letter == WorkCode(r, p) || (letter == ' ' && WorkCode(r, p) == 'D')
  }

  /** A rename from HEAD to the index. */
  predicate IndexRename(r: Repo, e: Entry)
    requires |e.code| == 2
  {
    && ShowsWork(r, e.path, e.code[1])
    && Staged(r, e.path).Some? && e.path !in Head(r)
    && IsPathName(e.orig) && e.orig in Head(r) && Staged(r, e.orig).None? && !IsUnmerged(r, e.orig)
  }

  /** A rename from the index to the working tree, where the new path has to be intended. */
  predicate WorkRename(r: Repo, e: Entry)
    requires |e.code| == 2
  {
    && e.code[0] == IndexCode(r, e.path)
    && IsIntended(r, e.path) && e.path !in r.hidden && e.path in r.work
    && IsPathName(e.orig) && Staged(r, e.orig).Some? && Seen(r, e.orig).None?
  }

  predicate ListedRight(r: Repo, e: Entry) {
    && |e.code| == 2 && IsPathName(e.path)
    && if e.code == "??" then Untracked(r, e.path)
       else if IsUnmerged(r, e.path) then e.code == r.odd[e.path].code
       else if e.code[0] == 'R' then IndexRename(r, e)
       else if e.code[1] == 'R' then WorkRename(r, e)
       else e.code[0] == IndexCode(r, e.path) && ShowsWork(r, e.path, e.code[1]) && e.code != "  "
  }

  predicate Mentions(e: Entry, p: Path) {
    e.path == p || (HasOrig(e.code) && e.orig == p)
  }

  ghost predicate MentionedIn(entries: seq<Entry>, p: Path) {
    exists e :: e in entries && Mentions(e, p)
  }

  /** A listing git may give for this state: every path that looks dirty is mentioned,
      possibly as one side of a rename, nothing else is, and untracked paths come last.
      Copy detection is off, as it is by default. */
  ghost predicate Lists(entries: seq<Entry>, r: Repo) {
    && (forall e | e in entries :: ListedRight(r, e))
    && (forall p | SeenDirty(r, p) && IsPathName(p) :: MentionedIn(entries, p))
    && (forall p | Untracked(r, p) && IsPathName(p) :: Entry("??", p, "") in entries)
    && (forall i, j | 0 <= i < j < |entries| && entries[i].code == "??" :: entries[j].code == "??")
  }

  // ---------------------------------------------------------------------------
  // What is captured of the listing
  // ---------------------------------------------------------------------------

  /** The first token of an entry. */
  function HeadToken(e: Entry): string {
    e.code + " " + e.path
  }

  /** An entry as it is printed. */
  function EntryText(e: Entry): string {
    HeadToken(e) + "\0" + if HasOrig(e.code) then e.orig + "\0" else ""
  }

  function Text(entries: seq<Entry>): string {
    if entries == [] then "" else EntryText(entries[0]) + Text(entries[1..])
  }

  const OUTPUT_LIMIT: nat := 50_000

  const CUT_MARK := "\n[output truncated]"

  /** The sandbox keeps so many characters of a command's output, and marks the cut. */
  function Captured(text: string): string {
    if |text| > OUTPUT_LIMIT then text[..OUTPUT_LIMIT] + CUT_MARK else text
  }

  function SplitNul(s: string): (tokens: seq<string>)
    ensures tokens != []
  {
    Split(s, '\0')
  }

  function Record(d: map<Path, string>, e: Entry): map<Path, string> {
    var d1 := d[e.path := e.code];
    if TwoPaths(e.code) && e.orig != "" && e.orig !in d1 then d1[e.orig := "D "] else d1
  }

  function RecordAll(d: map<Path, string>, entries: seq<Entry>): map<Path, string>
    decreases entries
  {
    if entries == [] then d else RecordAll(Record(d, entries[0]), entries[1..])
  }

  /** The status dictionary of a whole listing. */
  function Status(entries: seq<Entry>): map<Path, string> {
    RecordAll(map[], entries)
  }

  /** What the parser makes of the tokens that are left. */
  function Parsed(d: map<Path, string>, tokens: seq<string>): map<Path, string>
    decreases |tokens|
  {
    if tokens == [] then d
    else if tokens[0] == "" then Parsed(d, tokens[1..])
    else
      var tok := tokens[0];
      var code, path := Prefix(tok, 2), Suffix(tok, 3);
      if TwoPaths(code) && |tokens| > 1
      then Parsed(Record(d, Entry(code, path, tokens[1])), tokens[2..])
      else Parsed(d[path := code], tokens[1..])
  }

  /** Python's `s[:n]` and `s[n:]`. */
  function Prefix(s: string, n: nat): string {
    if |s| <= n then s else s[..n]
  }

  function Suffix(s: string, n: nat): string {
    if |s| <= n then "" else s[n..]
  }

  /** The status dictionary that is read of a listing. */
  function Dictionary(entries: seq<Entry>): map<Path, string> {
    Parsed(map[], SplitNul(Captured(Text(entries))))
  }

  /** The parser: an index walks over the tokens, twice per step for a rename. */
  method ParsePorcelain(tokens: seq<string>) returns (entries: map<Path, string>)
    ensures entries == Parsed(map[], tokens)
  {
    entries := map[];
    var i := 0;
    while i < |tokens|
      invariant 0 <= i <= |tokens|
      invariant Parsed(entries, tokens[i..]) == Parsed(map[], tokens)
    {
      ghost var rest := tokens[i..];
      assert rest[1..] == tokens[i + 1..];
      var tok := tokens[i];
      if tok == "" {
        i := i + 1;
        continue;
      }
      var code, path := Prefix(tok, 2), Suffix(tok, 3);
      entries := entries[path := code];
      if TwoPaths(code) && i + 1 < |tokens| {
        assert rest[2..] == tokens[i + 2..];
        i := i + 1;
        var orig := tokens[i];
        if orig != "" && orig !in entries {
          entries := entries[orig := "D "];
        }
      }
      i := i + 1;
    }
  }

  // ---------------------------------------------------------------------------
  // Listings that are captured whole
  // ---------------------------------------------------------------------------

  /** An entry that the parser takes as it is meant: no rename in the working tree, whose
      second path the parser does not expect. */
  predicate Readable(e: Entry) {
    && |e.code| == 2 && NoNul(e.code) && IsPathName(e.path)
    && !IsRenameOrCopy(e.code[1])
    && (TwoPaths(e.code) ==> IsPathName(e.orig))
  }

  predicate AllReadable(entries: seq<Entry>) {
    forall e | e in entries :: Readable(e)
  }

  predicate NoWorkRenames(entries: seq<Entry>) {
    forall e | e in entries && |e.code| == 2 :: !IsRenameOrCopy(e.code[1])
  }

  lemma ListingIsReadable(entries: seq<Entry>, r: Repo)
    requires Lists(entries, r) && NoWorkRenames(entries)
    ensures AllReadable(entries)
  {
    forall e | e in entries ensures Readable(e) {
      assert ListedRight(r, e);
    }
  }

  /** Without paths that are only intended to be added there are no renames in the working
      tree. */
  lemma NoIntentNoWorkRenames(entries: seq<Entry>, r: Repo)
    requires Lists(entries, r) && forall p :: !IsIntended(r, p)
    ensures NoWorkRenames(entries)
  {
    forall e | e in entries && |e.code| == 2 ensures !IsRenameOrCopy(e.code[1]) {
      assert ListedRight(r, e);
    }
  }

  lemma SplitToken(token: string, rest: string)
    requires NoNul(token)
    ensures SplitNul(token + "\0" + rest) == [token] + SplitNul(rest)
  {
    hide Split;
    SplitFirst(token, '\0', rest);
  }

  lemma SplitLastToken(token: string)
    requires NoNul(token)
    ensures SplitNul(token) == [token]
  {
    hide Split;
    SplitLast(token, '\0');
  }

  lemma Reassociate(a: string, b: string, c: string)
    ensures a + b + c == a + (b + c)
  {
  }

  lemma HeadTokenReads(e: Entry)
    requires Readable(e)
    ensures NoNul(HeadToken(e)) && HeadToken(e) != ""
    ensures Prefix(HeadToken(e), 2) == e.code && Suffix(HeadToken(e), 3) == e.path
  {
  }

  lemma SplitEntry(e: Entry, rest: string)
    requires Readable(e)
    ensures SplitNul(EntryText(e) + rest) ==
      [HeadToken(e)] + (if TwoPaths(e.code) then [e.orig] else []) + SplitNul(rest)
  {
    HeadTokenReads(e);
    hide SplitNul, NoNul, HeadToken;
    if TwoPaths(e.code) {
      Reassociate(HeadToken(e) + "\0", e.orig + "\0", rest);
      SplitToken(HeadToken(e), e.orig + "\0" + rest);
      SplitToken(e.orig, rest);
    } else {
      assert EntryText(e) == HeadToken(e) + "\0";
      SplitToken(HeadToken(e), rest);
    }
  }

  /** Reading the text of an entry records the entry. */
  lemma ParseEntry(d: map<Path, string>, e: Entry, rest: string)
    requires Readable(e)
    ensures Parsed(d, SplitNul(EntryText(e) + rest)) == Parsed(Record(d, e), SplitNul(rest))
  {
    SplitEntry(e, rest);
    HeadTokenReads(e);
    var tokens := SplitNul(EntryText(e) + rest);
    if TwoPaths(e.code) {
      assert tokens[1] == e.orig && tokens[2..] == SplitNul(rest);
    } else {
      assert tokens[1..] == SplitNul(rest);
    }
  }

  lemma {:induction false} ParseText(d: map<Path, string>, entries: seq<Entry>, rest: string)
    requires AllReadable(entries)
    ensures Parsed(d, SplitNul(Text(entries) + rest)) == Parsed(RecordAll(d, entries), SplitNul(rest))
    decreases entries
  {
    if entries == [] {
      assert Text(entries) + rest == rest;
    } else {
      var e := entries[0];
      assert Text(entries) + rest == EntryText(e) + (Text(entries[1..]) + rest);
      ParseEntry(d, e, Text(entries[1..]) + rest);
      ParseText(Record(d, e), entries[1..], rest);
    }
  }

  /** The listing is captured whole. */
  predicate Fits(entries: seq<Entry>) {
    |Text(entries)| <= OUTPUT_LIMIT
  }

  /** Of a listing that is captured whole every entry is read. */
  lemma DictionaryOfWhole(entries: seq<Entry>)
    requires Fits(entries) && AllReadable(entries)
    ensures Dictionary(entries) == Status(entries)
  {
    assert Text(entries) + "" == Text(entries);
    ParseText(map[], entries, "");
    SplitLastToken("");
  }

  lemma {:induction false} RecordedKeys(d: map<Path, string>, entries: seq<Entry>, p: Path)
    requires p != "" && AllReadable(entries)
    ensures p in RecordAll(d, entries) <==> p in d || MentionedIn(entries, p)
    decreases entries
  {
    if entries != [] {
      var e := entries[0];
      RecordedKeys(Record(d, e), entries[1..], p);
      assert p in Record(d, e) <==> p in d || Mentions(e, p);
      forall x | x in entries ensures x == e || x in entries[1..] {}
      if Mentions(e, p) {
        assert e in entries;
      }
      if MentionedIn(entries[1..], p) {
        var x :| x in entries[1..] && Mentions(x, p);
        assert x in entries;
      }
    }
  }

  /** The code of the last entry for this path itself. */
  function LastCodeOf(entries: seq<Entry>, p: Path): Option<string> {
    var n := |entries|;
    if n == 0 then None
    else if entries[n - 1].path == p then Some(entries[n - 1].code)
    else LastCodeOf(entries[..n - 1], p)
  }

  lemma {:induction false} RecordOneMore(d: map<Path, string>, entries: seq<Entry>, e: Entry)
    ensures RecordAll(d, entries + [e]) == Record(RecordAll(d, entries), e)
    decreases entries
  {
    if entries == [] {
      assert [] + [e] == [e] && [e][1..] == [];
    } else {
      assert (entries + [e])[1..] == entries[1..] + [e];
      RecordOneMore(Record(d, entries[0]), entries[1..], e);
    }
  }

  lemma {:induction false} RecordedIs(entries: seq<Entry>, p: Path)
    requires p != ""
    ensures var own := LastCodeOf(entries, p);
      && (own.Some? ==> p in Status(entries) && Status(entries)[p] == own.value)
      && (own.None? && p in Status(entries) ==> Status(entries)[p] == "D ")
  {
    var n := |entries|;
    if n > 0 {
      RecordedIs(entries[..n - 1], p);
      RecordOneMore(map[], entries[..n - 1], entries[n - 1]);
      assert entries == entries[..n - 1] + [entries[n - 1]];
    }
  }

  /** What the dictionary of a whole listing says of a path: the code of its last own entry,
      else a staged deletion if it is the old path of a rename, else nothing. */
  lemma DictionarySays(entries: seq<Entry>, p: Path)
    requires Fits(entries) && AllReadable(entries) && p != ""
    ensures var own, d := LastCodeOf(entries, p), Dictionary(entries);
      if own.Some? then p in d && d[p] == own.value
      else if MentionedIn(entries, p) then p in d && d[p] == "D "
      else p !in d
  {
    DictionaryOfWhole(entries);
    RecordedIs(entries, p);
    RecordedKeys(map[], entries, p);
  }

  lemma ListedPathIsSeenDirty(r: Repo, e: Entry)
    requires ListedRight(r, e)
    ensures SeenDirty(r, e.path)
  {
  }

  lemma ListedOrigIsSeenDirty(r: Repo, e: Entry)
    requires ListedRight(r, e) && HasOrig(e.code)
    ensures SeenDirty(r, e.orig)
  {
    hide IsPathName;
    assert e.code[0] == 'R' || e.code[1] == 'R';
  }

  /** A listing mentions exactly the paths that look dirty. */
  lemma MentionedIsSeenDirty(entries: seq<Entry>, r: Repo, p: Path)
    requires Lists(entries, r) && IsPathName(p)
    ensures MentionedIn(entries, p) <==> SeenDirty(r, p)
  {
    hide SeenDirty, ListedRight, HasOrig, IsPathName;
    if MentionedIn(entries, p) {
      var e :| e in entries && Mentions(e, p);
      ListedPathIsSeenDirty(r, e);
      if e.path != p {
        ListedOrigIsSeenDirty(r, e);
      }
    }
  }

  /** The dictionary of a listing that is captured whole has exactly the paths that look
      dirty as its keys. */
  lemma {:induction false} StatusKeysAreDirty(entries: seq<Entry>, r: Repo, p: Path)
    requires Lists(entries, r) && Fits(entries) && NoWorkRenames(entries) && IsPathName(p)
    ensures p in Dictionary(entries) <==> SeenDirty(r, p)
  {
    ListingIsReadable(entries, r);
    DictionaryOfWhole(entries);
    RecordedKeys(map[], entries, p);
    MentionedIsSeenDirty(entries, r, p);
  }

  /** An untracked path keeps its "??", even if its staged deletion is listed as well. */
  lemma {:induction false} UntrackedWins(d: map<Path, string>, entries: seq<Entry>, p: Path)
    requires forall e | e in entries :: |e.code| == 2
    requires forall i, j | 0 <= i < j < |entries| && entries[i].code == "??" :: entries[j].code == "??"
    requires (exists e :: e in entries && e.path == p && e.code == "??")
      || (p in d && d[p] == "??" && forall e | e in entries :: e.code == "??")
    ensures p in RecordAll(d, entries) && RecordAll(d, entries)[p] == "??"
    decreases entries
  {
    if entries != [] {
      var e := entries[0];
      forall x | x in entries ensures x == e || x in entries[1..] {}
      if e.code == "??" {
        forall x | x in entries[1..] ensures x.code == "??" {
          var i :| 0 <= i < |entries[1..]| && entries[1..][i] == x;
          assert entries[i + 1] == x;
        }
      }
      UntrackedWins(Record(d, e), entries[1..], p);
    }
  }

  /** A conflict whose code begins like that of an added file. */
  predicate AddedInConflict(r: Repo, p: Path) {
    IsUnmerged(r, p) && r.odd[p].code in {"AU", "AA"}
  }

  /** The entry gives its path this code. */
  predicate Gives(e: Entry, p: Path, code: string) {
    (e.path == p && e.code == code) || (TwoPaths(e.code) && e.orig == p && code == "D ")
  }

  /** A code in the dictionary was listed for its path, or marks it as a rename's old path. */
  lemma {:induction false} RecordedCode(d: map<Path, string>, entries: seq<Entry>, p: Path)
    requires p in RecordAll(d, entries)
    ensures var c := RecordAll(d, entries)[p];
      (p in d && d[p] == c) || exists e :: e in entries && Gives(e, p, c)
    decreases entries
  {
    if entries != [] {
      var e := entries[0];
      RecordedCode(Record(d, e), entries[1..], p);
      var c := RecordAll(d, entries)[p];
      if x :| x in entries[1..] && Gives(x, p, c) {
        assert x in entries;
      } else {
        assert e in entries && ((p in d && d[p] == c) || Gives(e, p, c));
      }
    }
  }

  /** Which code an entry gives to a path that HEAD has. */
  lemma GivenCode(r: Repo, e: Entry, p: Path, code: string)
    requires ListedRight(r, e) && Gives(e, p, code) && p in Head(r)
    ensures code != ""
    ensures code[0] in {'?', 'A'} <==> code == "??" || AddedInConflict(r, p)
    ensures code == "??" ==> Untracked(r, p)
  {
  }

  /** For a path that HEAD has, the dictionary looks "new" exactly when the file is untracked,
      or added in a conflict. */
  lemma {:induction false} LooksNew(entries: seq<Entry>, r: Repo, p: Path)
    requires Lists(entries, r) && Fits(entries) && NoWorkRenames(entries)
    requires IsPathName(p) && p in Head(r) && p in Dictionary(entries)
    ensures Dictionary(entries)[p] != ""
    ensures Dictionary(entries)[p][0] in {'?', 'A'} <==> Untracked(r, p) || AddedInConflict(r, p)
  {
    ListingIsReadable(entries, r);
    DictionaryOfWhole(entries);
    hide ListedRight, Gives, SeenDirty, Untracked, AddedInConflict;
    RecordedCode(map[], entries, p);
    var c := Status(entries)[p];
    var e :| e in entries && Gives(e, p, c);
    GivenCode(r, e, p, c);
    if Untracked(r, p) {
      UntrackedWins(map[], entries, p);
    }
  }

  // ---------------------------------------------------------------------------
  // Listings that are cut
  // ---------------------------------------------------------------------------

  /** What a cut adds to the dictionary ends like the mark of the cut. */
  predicate EndsLikeMark(p: Path) {
    p != "" && p[|p| - 1] == ']'
  }

  lemma MarkedToken(d: map<Path, string>, token: string, p: Path)
    requires NoNul(token)
    ensures SplitNul(token + CUT_MARK) == [token + CUT_MARK]
    ensures p in Parsed(d, [token + CUT_MARK]) ==> p in d || EndsLikeMark(p)
    ensures EndsLikeMark(token + CUT_MARK)
  {
    var t := token + CUT_MARK;
    assert NoNul(CUT_MARK) && t[|t| - 1] == CUT_MARK[18] == ']';
    SplitLastToken(t);
    assert [t][1..] == [];
    assert Parsed(d, [t]) == d[Suffix(t, 3) := Prefix(t, 2)];
  }

  lemma CutInSecond(a: string, b: string, n: nat)
    requires n <= |a + b|
    ensures n >= |a| ==> (a + b)[..n] + CUT_MARK == a + (b[..n - |a|] + CUT_MARK)
    ensures n < |a| ==> (a + b)[..n] == a[..n]
  {
    if n >= |a| {
      assert (a + b)[..n] == a + b[..n - |a|];
    }
  }

  /** The text of these entries up to a cut, with its mark. */
  function CutText(entries: seq<Entry>, n: nat): string
    requires n <= |Text(entries)|
  {
    Text(entries)[..n] + CUT_MARK
  }

  lemma CutTextUnfolds(entries: seq<Entry>, n: nat)
    requires n <= |Text(entries)|
    ensures entries == [] ==> CutText(entries, n) == CUT_MARK
    ensures entries != [] ==>
      var e, rest := entries[0], entries[1..];
      if n < |EntryText(e)| then CutText(entries, n) == EntryText(e)[..n] + CUT_MARK
      else (
        && n - |EntryText(e)| <= |Text(rest)|
        && CutText(entries, n) == EntryText(e) + CutText(rest, n - |EntryText(e)|))
  {
    hide EntryText;
    if entries != [] {
      CutInSecond(EntryText(entries[0]), Text(entries[1..]), n);
    }
  }

  lemma FirstAndRest(entries: seq<Entry>, p: Path)
    requires entries != [] && AllReadable(entries)
    ensures Readable(entries[0]) && AllReadable(entries[1..])
    ensures Mentions(entries[0], p) || MentionedIn(entries[1..], p) ==> MentionedIn(entries, p)
  {
    assert entries[0] in entries;
    forall e | e in entries[1..] ensures e in entries {}
  }

  lemma RecordAddsMentioned(d: map<Path, string>, e: Entry, p: Path)
    ensures p in Record(d, e) ==> p in d || Mentions(e, p)
  {
  }

  /** Of a listing that is cut within these entries nothing is read but what they mention. */
  lemma {:induction false} CutWithin(d: map<Path, string>, entries: seq<Entry>, n: nat, p: Path)
    requires AllReadable(entries) && n <= |Text(entries)|
    requires p in Parsed(d, SplitNul(CutText(entries, n)))
    ensures p in d || MentionedIn(entries, p) || EndsLikeMark(p)
    decreases entries
  {
    hide CutText, EntryText, Text, SplitNul, Parsed, AllReadable, MentionedIn, Mentions, Record, EndsLikeMark;
    CutTextUnfolds(entries, n);
    if entries == [] {
      assert "" + CUT_MARK == CUT_MARK;
      MarkedToken(d, "", p);
    } else {
      var e, rest := entries[0], entries[1..];
      FirstAndRest(entries, p);
      if n >= |EntryText(e)| {
        var m := n - |EntryText(e)|;
        RecordAddsMentioned(d, e, p);
        ParseEntry(d, e, CutText(rest, m));
        CutWithin(Record(d, e), rest, m, p);
      } else {
        CutEntry(d, e, n, p);
      }
    }
  }

  lemma CutEntry(d: map<Path, string>, e: Entry, n: nat, p: Path)
    requires Readable(e) && n < |EntryText(e)|
    requires p in Parsed(d, SplitNul(EntryText(e)[..n] + CUT_MARK))
    ensures p in d || Mentions(e, p) || EndsLikeMark(p)
  {
    HeadTokenReads(e);
    var h := HeadToken(e);
    if n <= |h| {
      assert EntryText(e)[..n] == h[..n];
      MarkedToken(d, h[..n], p);
    } else {
      hide SplitNul, NoNul, HeadToken;
      var m := n - |h| - 1;
      CutInOrig(h, e.orig, n);
      SplitToken(h, e.orig[..m] + CUT_MARK);
      MarkedToken(d, e.orig[..m], p);
      ParsedPair(d, e, e.orig[..m] + CUT_MARK);
    }
  }

  lemma CutInOrig(h: string, orig: string, n: nat)
    requires |h| < n <= |h| + 1 + |orig|
    ensures (h + "\0" + (orig + "\0"))[..n] + CUT_MARK == h + "\0" + (orig[..n - |h| - 1] + CUT_MARK)
  {
    assert (h + "\0" + (orig + "\0"))[..n] == h + "\0" + orig[..n - |h| - 1];
  }

  lemma ParsedPair(d: map<Path, string>, e: Entry, second: string)
    requires Readable(e) && TwoPaths(e.code)
    ensures Parsed(d, [HeadToken(e)] + [second]) == Record(d, Entry(e.code, e.path, second))
  {
    HeadTokenReads(e);
    var tokens := [HeadToken(e)] + [second];
    assert tokens[2..] == [];
  }

  lemma {:induction false} TextConcat(a: seq<Entry>, b: seq<Entry>)
    ensures Text(a + b) == Text(a) + Text(b)
  {
    if a == [] {
      assert a + b == b;
    } else {
      assert (a + b)[1..] == a[1..] + b;
      TextConcat(a[1..], b);
    }
  }

  /** A path that is mentioned only past the limit is not read. */
  lemma PastTheCutIsNotRead(front: seq<Entry>, back: seq<Entry>, p: Path)
    requires AllReadable(front) && 50_000 <= |Text(front)|
    requires back != [] && !MentionedIn(front, p) && !EndsLikeMark(p)
    ensures p !in Dictionary(front + back)
  {
    TextConcat(front, back);
    assert |Text(back)| > 0;
    var text := Text(front + back);
    assert text[..OUTPUT_LIMIT] == Text(front)[..OUTPUT_LIMIT];
    assert Captured(text) == CutText(front, OUTPUT_LIMIT);
    if p in Dictionary(front + back) {
      CutWithin(map[], front, OUTPUT_LIMIT, p);
    }
  }

  lemma {:induction false} ParsedKeepsKeys(d: map<Path, string>, tokens: seq<string>, p: Path)
    requires p in d
    ensures p in Parsed(d, tokens)
    decreases |tokens|
  {
    if tokens != [] {
      if tokens[0] == "" {
        ParsedKeepsKeys(d, tokens[1..], p);
      } else {
        var code, path := Prefix(tokens[0], 2), Suffix(tokens[0], 3);
        if TwoPaths(code) && |tokens| > 1 {
          ParsedKeepsKeys(Record(d, Entry(code, path, tokens[1])), tokens[2..], p);
        } else {
          ParsedKeepsKeys(d[path := code], tokens[1..], p);
        }
      }
    }
  }

  /** Captured whole or not, a path that is read looks dirty, but for what the mark adds. */
  lemma ReadIsSeenDirty(entries: seq<Entry>, r: Repo, p: Path)
    requires Lists(entries, r) && NoWorkRenames(entries) && IsPathName(p) && !EndsLikeMark(p)
    ensures p in Dictionary(entries) ==> SeenDirty(r, p)
  {
    hide Lists, SeenDirty, IsPathName, EndsLikeMark, SplitNul, Parsed, Text, MentionedIn, AllReadable;
    ListingIsReadable(entries, r);
    MentionedIsSeenDirty(entries, r, p);
    if Fits(entries) {
      StatusKeysAreDirty(entries, r, p);
    } else if p in Dictionary(entries) {
      CutWithin(map[], entries, OUTPUT_LIMIT, p);
    }
  }

  lemma CapturedRest(front: string, back: string) returns (rest: string)
    requires |front| <= OUTPUT_LIMIT
    ensures Captured(front + back) == front + rest
  {
    rest := Captured(front + back)[|front|..];
  }

  /** A path that is mentioned within the limit is read, whatever follows. */
  lemma BeforeTheCutIsRead(front: seq<Entry>, back: seq<Entry>, p: Path)
    requires AllReadable(front) && |Text(front)| <= 50_000
    requires p != "" && MentionedIn(front, p)
    ensures p in Dictionary(front + back)
  {
    TextConcat(front, back);
    hide Text, SplitNul, Parsed, RecordAll, Captured;
    var rest := CapturedRest(Text(front), Text(back));
    ParseText(map[], front, rest);
    RecordedKeys(map[], front, p);
    ParsedKeepsKeys(RecordAll(map[], front), SplitNul(rest), p);
  }

  lemma {:induction false} ParsedCodesNonEmpty(d: map<Path, string>, tokens: seq<string>)
    requires forall p | p in d :: d[p] != ""
    ensures forall p | p in Parsed(d, tokens) :: Parsed(d, tokens)[p] != ""
    decreases |tokens|
  {
    if tokens != [] {
      if tokens[0] == "" {
        ParsedCodesNonEmpty(d, tokens[1..]);
      } else {
        var code, path := Prefix(tokens[0], 2), Suffix(tokens[0], 3);
        if TwoPaths(code) && |tokens| > 1 {
          ParsedCodesNonEmpty(Record(d, Entry(code, path, tokens[1])), tokens[2..]);
        } else {
          ParsedCodesNonEmpty(d[path := code], tokens[1..]);
        }
      }
    }
  }

  // ---------------------------------------------------------------------------
  // Every state has a listing
  // ---------------------------------------------------------------------------

  ghost function Ordered(paths: set<Path>): (s: seq<Path>)
    ensures forall p :: p in s <==> p in paths
  {
    if paths == {} then [] else var p :| p in paths; [p] + Ordered(paths - {p})
  }

  function TrackedEntries(r: Repo, paths: seq<Path>): (entries: seq<Entry>)
    ensures |entries| == |paths|
    ensures forall i | 0 <= i < |paths| :: entries[i] == Entry(Code(r, paths[i]), paths[i], "")
  {
    if paths == [] then []
    else
      var p := paths[|paths| - 1];
      TrackedEntries(r, paths[..|paths| - 1]) + [Entry(Code(r, p), p, "")]
  }

  function UntrackedEntries(paths: seq<Path>): (entries: seq<Entry>)
    ensures |entries| == |paths|
    ensures forall i | 0 <= i < |paths| :: entries[i] == Entry("??", paths[i], "")
  {
    if paths == [] then []
    else UntrackedEntries(paths[..|paths| - 1]) + [Entry("??", paths[|paths| - 1], "")]
  }

  /** The paths with a status of their own, and the untracked ones. */
  function TrackedPaths(r: Repo): set<Path> {
    set p | p in Head(r).Keys + r.index.Keys + r.odd.Keys && IsPathName(p) && Code(r, p) != "  "
  }

  function UntrackedPaths(r: Repo): set<Path> {
    set p | p in r.work.Keys && IsPathName(p) && Untracked(r, p)
  }

  ghost function Listing(r: Repo): seq<Entry> {
    TrackedEntries(r, Ordered(TrackedPaths(r))) + UntrackedEntries(Ordered(UntrackedPaths(r)))
  }

  lemma HasOwnEntry(r: Repo, p: Path)
    requires IsPathName(p)
    ensures Untracked(r, p) ==> p in UntrackedPaths(r)
    ensures SeenDirty(r, p) && !Untracked(r, p) ==> p in TrackedPaths(r)
  {
  }

  lemma ListingMentions(r: Repo, p: Path)
    requires IsPathName(p)
    ensures SeenDirty(r, p) ==> MentionedIn(Listing(r), p)
    ensures Untracked(r, p) ==> Entry("??", p, "") in Listing(r)
  {
    HasOwnEntry(r, p);
    hide TrackedPaths, UntrackedPaths, SeenDirty, Untracked, Code, IsPathName;
    var t, u := Ordered(TrackedPaths(r)), Ordered(UntrackedPaths(r));
    if Untracked(r, p) {
      var i :| 0 <= i < |u| && u[i] == p;
      assert Listing(r)[|t| + i] == Entry("??", p, "");
      assert Mentions(Entry("??", p, ""), p);
    } else if SeenDirty(r, p) {
      var i :| 0 <= i < |t| && t[i] == p;
      assert Listing(r)[i] == Entry(Code(r, p), p, "");
      assert Mentions(Entry(Code(r, p), p, ""), p);
    }
  }

  /** The listing's entry of a path. */
  function TrackedEntry(r: Repo, p: Path): Entry {
    Entry(Code(r, p), p, "")
  }

  lemma OwnEntriesAreRight(r: Repo, p: Path)
    ensures p in TrackedPaths(r) ==> ListedRight(r, TrackedEntry(r, p)) && TrackedEntry(r, p).code != "??"
    ensures p in UntrackedPaths(r) ==> ListedRight(r, Entry("??", p, ""))
  {
  }

  lemma ListingLists(r: Repo)
    ensures Lists(Listing(r), r)
  {
    hide ListedRight, Code, Untracked, SeenDirty, IsPathName, TrackedPaths, UntrackedPaths;
    var t, u := Ordered(TrackedPaths(r)), Ordered(UntrackedPaths(r));
    var l := Listing(r);
    forall i | 0 <= i < |l| ensures ListedRight(r, l[i]) && (i < |t| ==> l[i].code != "??") {
      OwnEntriesAreRight(r, if i < |t| then t[i] else u[i - |t|]);
    }
    forall p | IsPathName(p)
      ensures SeenDirty(r, p) ==> MentionedIn(l, p)
      ensures Untracked(r, p) ==> Entry("??", p, "") in l
    {
      ListingMentions(r, p);
    }
  }

  // ---------------------------------------------------------------------------
  // git diff --name-only
  // ---------------------------------------------------------------------------

  predicate Changed(a: Tree, b: Tree, p: Path) {
    At(a, p) != At(b, p)
  }

  /** The paths named by the diff of two commits: every changed one, except that a
      rename detected by git is named by its new path only. */
  ghost predicate NamesDiff(names: seq<Path>, a: Tree, b: Tree) {
    && (forall p | p in names :: Changed(a, b, p))
    && (forall p | Changed(a, b, p) ::
          p in names || (p in a && p !in b && exists q :: q in names && RenameOf(a, b, p, q)))
  }

  predicate RenameOf(a: Tree, b: Tree, p: Path, q: Path) {
    p in a && p !in b && q !in a && q in b
  }

  function ChangedPaths(a: Tree, b: Tree): (names: set<Path>)
    ensures forall p :: p in names <==> Changed(a, b, p)
  {
    set p | p in a.Keys + b.Keys && Changed(a, b, p)
  }
}
