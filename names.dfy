/**
 * The name normaliser (cleanupNameWhitespace): every cell of one column is
 * rewritten to `' '.join(str(cell).split())`, so that free-text names typed
 * with irregular spacing compare equal in the joins that follow.
 */
module Names {
  import opened Wrappers
  import opened Tables

  /** Python's `str.isspace` for one character: the separators `str.split()` splits on. */
  predicate IsSpace(c: char) {
    || c == ' '
    || '\t' <= c <= '\r'
    || '\U{1C}' <= c <= '\U{1F}'
    || c == '\U{85}' || c == '\U{A0}' || c == '\U{1680}'
    || '\U{2000}' <= c <= '\U{200A}'
    || c == '\U{2028}' || c == '\U{2029}' || c == '\U{202F}' || c == '\U{205F}' || c == '\U{3000}'
  }

  /** A token `str.split()` can produce: non-empty, without whitespace. */
  predicate IsWord(w: string) {
    |w| > 0 && forall i :: 0 <= i < |w| ==> !IsSpace(w[i])
  }

  /** The length of the non-whitespace run that starts `s`. */
  function WordLength(s: string): (n: nat)
    ensures n <= |s|
    ensures forall i :: 0 <= i < n ==> !IsSpace(s[i])
    ensures n < |s| ==> IsSpace(s[n])
  {
    if s == [] || IsSpace(s[0]) then 0 else 1 + WordLength(s[1..])
  }

  /** Python's `s.split()`: the maximal runs of non-whitespace characters, in order. */
  function Split(s: string): (words: seq<string>)
    ensures forall w :: w in words ==> IsWord(w)
    decreases |s|
  {
    if s == [] then []
    else if IsSpace(s[0]) then Split(s[1..])
    else
      var n := WordLength(s);
      assert IsWord(s[..n]);
      [s[..n]] + Split(s[n..])
  }

  /** Python's `' '.join(words)`. */
  function Join(words: seq<string>): string {
    if words == [] then ""
    else if |words| == 1 then words[0]
    else words[0] + " " + Join(words[1..])
  }

  /** `' '.join(s.split())`: whitespace runs collapsed to one space, both ends trimmed. */
  function Normalize(s: string): string {
    Join(Split(s))
  }

  /**
   * A string `Normalize` leaves alone: it neither starts nor ends with
   * whitespace, and its only whitespace characters are single spaces.
   */
  predicate Canonical(t: string) {
    && (|t| > 0 ==> !IsSpace(t[0]) && !IsSpace(t[|t| - 1]))
    && forall i :: 0 <= i < |t| && IsSpace(t[i]) ==> t[i] == ' ' && i + 1 < |t| && !IsSpace(t[i + 1])
  }

  /** `str(cell)`: a null cell (NaN) stringifies to "nan". */
  function CellText(c: Cell): string {
    match c
    case None => "nan"
    case Some(s) => s
  }

  /** The value cleanupNameWhitespace writes into one cell. */
  function NormalizeCell(c: Cell): string {
    Normalize(CellText(c))
  }

  lemma WordLengthOfWord(w: string, rest: string)
    requires IsWord(w)
    requires rest == [] || IsSpace(rest[0])
    ensures WordLength(w + rest) == |w|
  {
    assert forall i :: 0 <= i < |w| ==> (w + rest)[i] == w[i];
    assert |rest| > 0 ==> (w + rest)[|w|] == rest[0];
  }

  /** A word followed by whitespace (or by nothing) is the first token. */
  lemma SplitWordFirst(w: string, rest: string)
    requires IsWord(w)
    requires rest == [] || IsSpace(rest[0])
    ensures Split(w + rest) == [w] + Split(rest)
  {
    var s := w + rest;
    assert s[0] == w[0];
    WordLengthOfWord(w, rest);
    assert s[..|w|] == w;
    assert s[|w|..] == rest;
  }

  /** Splitting joined words gives the words back. */
  lemma {:induction false} SplitJoin(ws: seq<string>)
    requires forall w :: w in ws ==> IsWord(w)
    ensures Split(Join(ws)) == ws
    decreases |ws|
  {
    if ws == [] {
    } else if |ws| == 1 {
      SplitWordFirst(ws[0], "");
      assert ws[0] + "" == ws[0];
    } else {
      var rest := " " + Join(ws[1..]);
      assert Join(ws) == ws[0] + rest;
      SplitWordFirst(ws[0], rest);
      assert rest[1..] == Join(ws[1..]);
      SplitJoin(ws[1..]);
      assert ws == [ws[0]] + ws[1..];
    }
  }

  /** Joining words with single spaces gives a canonical string that starts with the first word. */
  lemma {:induction false} JoinCanonical(ws: seq<string>)
    requires forall w :: w in ws ==> IsWord(w)
    ensures Canonical(Join(ws))
    ensures ws != [] ==> |Join(ws)| > 0 && Join(ws)[0] == ws[0][0]
    decreases |ws|
  {
    if |ws| >= 2 {
      JoinCanonical(ws[1..]);
      var w, j := ws[0], Join(ws[1..]);
      assert ws[0] in ws && ws[1] in ws;
      var t := Join(ws);
      assert t == w + " " + j;
      assert j[0] == ws[1][0];
      forall i | 0 <= i < |t| && IsSpace(t[i])
        ensures t[i] == ' ' && i + 1 < |t| && !IsSpace(t[i + 1])
      {
        if i == |w| {
          assert t[i + 1] == j[0];
        } else if i > |w| {
          assert t[i] == j[i - |w| - 1];
          assert i + 1 < |t| ==> t[i + 1] == j[i - |w|];
        }
      }
      assert t[|t| - 1] == j[|j| - 1];
    } else if |ws| == 1 {
      assert ws[0] in ws;
    }
  }

  /** The part of a canonical string after one of its spaces is canonical too. */
  lemma CanonicalAfterSpace(t: string, n: nat)
    requires Canonical(t) && n < |t| && IsSpace(t[n])
    ensures t[n] == ' ' && n + 1 < |t| && !IsSpace(t[n + 1])
    ensures Canonical(t[n + 1..])
  {
    var rest := t[n + 1..];
    forall i | 0 <= i < |rest| && IsSpace(rest[i])
      ensures rest[i] == ' ' && i + 1 < |rest| && !IsSpace(rest[i + 1])
    {
      assert rest[i] == t[n + 1 + i];
    }
    assert rest[|rest| - 1] == t[|t| - 1];
  }

  /** Joining a word in front of other words puts one space between. */
  lemma JoinCons(w: string, ws: seq<string>)
    requires ws != []
    ensures Join([w] + ws) == w + " " + Join(ws)
  {
    assert ([w] + ws)[1..] == ws;
  }

  /** A string that starts with a word splits into that word and the split of what follows it. */
  lemma SplitAtWord(t: string)
    requires t != [] && !IsSpace(t[0])
    ensures Split(t) == [t[..WordLength(t)]] + Split(t[WordLength(t)..])
  {
  }

  /**
   * A word, one space and a string that starts with a word and rejoins to
   * itself: the whole rejoins to itself.
   */
  lemma FixpointStep(t: string, n: nat)
    requires 0 < n < |t| - 1 && n == WordLength(t) && !IsSpace(t[0])
    requires t[n] == ' ' && !IsSpace(t[n + 1])
    requires Join(Split(t[n + 1..])) == t[n + 1..]
    ensures Join(Split(t)) == t
  {
    var w, rest := t[..n], t[n + 1..];
    SplitAtWord(t);
    assert t[n..][1..] == rest;
    assert Split(t[n..]) == Split(rest);
    assert Split(rest) != [] by {
      assert rest[0] == t[n + 1];
      SplitAtWord(rest);
    }
    JoinCons(w, Split(rest));
    SpaceBetween(t, n);
  }

  /** A string is what comes before a space, the space, and what comes after it. */
  lemma SpaceBetween(t: string, n: nat)
    requires n < |t| && t[n] == ' '
    ensures t == t[..n] + " " + t[n + 1..]
  {
    assert t[n..] == [t[n]] + t[n + 1..];
    assert t == t[..n] + t[n..];
  }

  /** A canonical string is the single-space join of its own tokens. */
  lemma {:induction false} CanonicalFixpoint(t: string)
    requires Canonical(t)
    ensures Join(Split(t)) == t
    decreases |t|
  {
    if t != [] {
      var n := WordLength(t);
      if n == |t| {
        SplitAtWord(t);
        assert t[n..] == [];
        assert t[..n] == t;
      } else {
        CanonicalAfterSpace(t, n);
        CanonicalFixpoint(t[n + 1..]);
        FixpointStep(t, n);
      }
    }
  }

  /** Normalising yields a canonical string: trimmed, with no whitespace but single spaces. */
  lemma NormalizeCanonical(s: string)
    ensures Canonical(Normalize(s))
  {
    JoinCanonical(Split(s));
  }

  /** Normalising changes only the whitespace: the tokens stay the same, in order. */
  lemma NormalizeKeepsWords(s: string)
    ensures Split(Normalize(s)) == Split(s)
  {
    SplitJoin(Split(s));
  }

  /** Normalising is idempotent. */
  lemma NormalizeIdempotent(s: string)
    ensures Normalize(Normalize(s)) == Normalize(s)
  {
    NormalizeKeepsWords(s);
  }

  /** The strings normalising leaves unchanged are exactly the canonical ones. */
  lemma NormalizeFixedPoints(t: string)
    ensures Normalize(t) == t <==> Canonical(t)
  {
    if Canonical(t) {
      CanonicalFixpoint(t);
    } else {
      NormalizeCanonical(t);
    }
  }

  /** One row of a DataFrame: column name to cell. */
  type Row = map<string, Cell>

  /** One row with column `colName` rewritten to its normalised text. */
  function CleanRow(r: Row, colName: string): Row
    requires colName in r
  {
    r[colName := Some(NormalizeCell(r[colName]))]
  }

  /** `after` is `before` with column `colName` cleaned. */
  predicate Cleaned(before: Row, after: Row, colName: string) {
    colName in before && after == CleanRow(before, colName)
  }

  /** Cleaning a row changes column `colName` alone, and leaves it canonical. */
  lemma CleanRowSpec(r: Row, colName: string)
    requires colName in r
    ensures CleanRow(r, colName).Keys == r.Keys
    ensures forall c :: c in r && c != colName ==> CleanRow(r, colName)[c] == r[c]
    ensures CleanRow(r, colName)[colName].Some? && Canonical(CleanRow(r, colName)[colName].value)
  {
    NormalizeCanonical(CellText(r[colName]));
  }

  /**
   * cleanupNameWhitespace(df, colName): rewrites column `colName` of every
   * row, in place, to its normalised text. Reading a column the frame does not
   * have raises KeyError on the first row, before anything is written; `found`
   * is false exactly then. The rows of one frame share their columns.
   */
  method CleanupNameWhitespace(df: array<Row>, colName: string) returns (found: bool)
    requires forall i :: 0 <= i < df.Length ==> df[i].Keys == df[0].Keys
    modifies df
    ensures found <==> df.Length == 0 || colName in old(df[0])
    ensures found ==> forall i :: 0 <= i < df.Length ==> Cleaned(old(df[i]), df[i], colName)
    ensures found ==> forall i :: 0 <= i < df.Length ==>
      df[i].Keys == old(df[i]).Keys && forall c :: c in df[i] && c != colName ==> df[i][c] == old(df[i])[c]
    ensures found ==> forall i :: 0 <= i < df.Length ==>
      colName in df[i] && df[i][colName].Some? && Canonical(df[i][colName].value)
    ensures !found ==> df[..] == old(df[..])
  {
    var i := 0;
    while i < df.Length
      invariant 0 <= i <= df.Length
      invariant forall k :: 0 <= k < i ==> Cleaned(old(df[k]), df[k], colName)
      invariant forall k :: i <= k < df.Length ==> df[k] == old(df[k])
      invariant i > 0 ==> colName in old(df[0])
    {
      if colName !in df[i] {
        assert i == 0;
        return false;
      }
      df[i] := CleanRow(df[i], colName);
      i := i + 1;
    }
    forall k | 0 <= k < df.Length
      ensures df[k].Keys == old(df[k]).Keys && forall c :: c in df[k] && c != colName ==> df[k][c] == old(df[k])[c]
      ensures colName in df[k] && df[k][colName].Some? && Canonical(df[k][colName].value)
    {
      CleanRowSpec(old(df[k]), colName);
    }
    found := true;
  }

  /** Cleaning a column that is already clean changes nothing. */
  lemma CleanupIdempotent(c: Cell)
    ensures NormalizeCell(Some(NormalizeCell(c))) == NormalizeCell(c)
  {
    NormalizeIdempotent(CellText(c));
  }

  /** The single-space join of all tokens but the last, then a space, then the last, is the whole join. */
  lemma {:induction false} JoinLast(ws: seq<string>)
    requires |ws| >= 2
    ensures Join(ws[..|ws| - 1]) + " " + ws[|ws| - 1] == Join(ws)
    decreases |ws|
  {
    if |ws| > 2 {
      JoinLast(ws[1..]);
      assert ws[1..][..|ws| - 2] == ws[..|ws| - 1][1..];
      assert ws[..|ws| - 1][0] == ws[0];
    } else {
      assert ws[..1] == [ws[0]];
    }
  }
}
