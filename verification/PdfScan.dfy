/** Reading words that stand between fixed texts. */
module PdfScan {
  import opened Decimals
  import opened Wrappers
  import opened PdfWriter

  predicate At(file: string, place: nat, s: string) {
    place + |s| <= |file| && forall i :: 0 <= i < |s| ==> file[place + i] == s[i]
  }

  lemma AtMiddle(file: string, a: string, s: string, b: string)
    requires file == a + s + b
    ensures At(file, |a|, s)
  {
  }

  function WordEnd(file: string, place: nat): (r: nat)
    requires place <= |file|
    ensures place <= r <= |file|
    decreases |file| - place
  {
    if place == |file| || IsDelimiter(file[place]) then place else WordEnd(file, place + 1)
  }

  // The words read, and where the text after them begins.
  datatype Scan = Scan(words: seq<string>, end: nat)

  /** A fixed text, a word, a fixed text, ... up to the `n`-th word. */
  function Scanned(file: string, place: nat, fixed: seq<string>, n: nat): (r: Option<Scan>)
    requires n < |fixed|
    ensures r.Some? ==> r.value.end <= |file| && |r.value.words| == n
  {
    if n == 0 then (if At(file, place, fixed[0]) then Some(Scan([], place + |fixed[0]|)) else None)
    else
      match Scanned(file, place, fixed, n - 1)
      case None => None
      case Some(front) =>
        var end := WordEnd(file, front.end);
        if end == front.end || !At(file, end, fixed[n]) then None
        else Some(Scan(front.words + [file[front.end..end]], end + |fixed[n]|))
  }

  function Filled(fixed: seq<string>, words: seq<string>, n: nat): string
    requires n < |fixed| && n <= |words|
  {
    if n == 0 then fixed[0] else Filled(fixed, words, n - 1) + words[n - 1] + fixed[n]
  }

  lemma AtPrefix(file: string, place: nat, a: string, b: string)
    requires At(file, place, a + b)
    ensures At(file, place, a) && At(file, place + |a|, b)
  {
    var s := a + b;
    forall i | 0 <= i < |a| ensures file[place + i] == a[i] { assert s[i] == a[i]; }
    forall i | 0 <= i < |b| ensures file[place + |a| + i] == b[i] { assert s[|a| + i] == b[i]; }
  }

  lemma TextAt(file: string, place: nat, s: string)
    requires At(file, place, s)
    ensures file[place..place + |s|] == s
  {
  }

  lemma {:induction false} WordEndIs(file: string, place: nat, end: nat)
    requires place <= end < |file| && IsDelimiter(file[end])
    requires forall i :: place <= i < end ==> !IsDelimiter(file[i])
    ensures WordEnd(file, place) == end
    decreases end - place
  {
    if place < end { WordEndIs(file, place + 1, end); }
  }

  lemma WordIsRead(file: string, place: nat, word: string, next: string)
    requires At(file, place, word) && At(file, place + |word|, next) && IsWord(word)
    requires next != "" && IsDelimiter(next[0])
    ensures WordEnd(file, place) == place + |word| && file[place..place + |word|] == word
  {
    var end := place + |word|;
    forall i | place <= i < end ensures !IsDelimiter(file[i]) { assert file[i] == word[i - place]; }
    assert file[end] == next[0];
    WordEndIs(file, place, end);
    TextAt(file, place, word);
  }

  predicate Separates(fixed: seq<string>) {
    forall j :: 0 < j < |fixed| ==> fixed[j] != "" && IsDelimiter(fixed[j][0])
  }

  predicate AllWords(words: seq<string>) {
    forall j :: 0 <= j < |words| ==> IsWord(words[j])
  }

  lemma ScanStep(file: string, place: nat, fixed: seq<string>, n: nat, words: seq<string>, end: nat, word: string)
    requires 0 < n < |fixed| && Separates(fixed) && IsWord(word)
    requires Scanned(file, place, fixed, n - 1) == Some(Scan(words, end))
    requires At(file, end, word) && At(file, end + |word|, fixed[n])
    ensures Scanned(file, place, fixed, n) == Some(Scan(words + [word], end + |word| + |fixed[n]|))
  {
    WordIsRead(file, end, word, fixed[n]);
  }

  function FilledLength(fixed: seq<string>, words: seq<string>, n: nat): nat
    requires n < |fixed| && n <= |words|
  {
    if n == 0 then |fixed[0]| else FilledLength(fixed, words, n - 1) + |words[n - 1]| + |fixed[n]|
  }

  lemma {:induction false} LengthOfFilled(fixed: seq<string>, words: seq<string>, n: nat)
    requires n < |fixed| && n <= |words|
    ensures |Filled(fixed, words, n)| == FilledLength(fixed, words, n)
  {
    if n > 0 { LengthOfFilled(fixed, words, n - 1); }
  }

  /** The same text, piece by piece. */
  predicate FilledAt(file: string, place: nat, fixed: seq<string>, words: seq<string>, n: nat)
    requires n < |fixed| && n <= |words|
  {
    if n == 0 then At(file, place, fixed[0])
    else
      var end := place + FilledLength(fixed, words, n - 1);
      FilledAt(file, place, fixed, words, n - 1) && At(file, end, words[n - 1]) && At(file, end + |words[n - 1]|, fixed[n])
  }

  lemma {:induction false} FilledInPieces(file: string, place: nat, fixed: seq<string>, words: seq<string>, n: nat)
    requires n < |fixed| && n <= |words| && At(file, place, Filled(fixed, words, n))
    ensures FilledAt(file, place, fixed, words, n)
  {
    if n > 0 {
      LengthOfFilled(fixed, words, n - 1);
      AtPrefix(file, place, Filled(fixed, words, n - 1) + words[n - 1], fixed[n]);
      AtPrefix(file, place, Filled(fixed, words, n - 1), words[n - 1]);
      FilledInPieces(file, place, fixed, words, n - 1);
    }
  }

  lemma {:induction false} ScanPieces(file: string, place: nat, fixed: seq<string>, words: seq<string>, n: nat)
    requires n < |fixed| && n <= |words| && Separates(fixed) && AllWords(words)
    requires FilledAt(file, place, fixed, words, n)
    ensures Scanned(file, place, fixed, n) == Some(Scan(words[..n], place + FilledLength(fixed, words, n)))
  {
    if n > 0 {
      ScanPieces(file, place, fixed, words, n - 1);
      ScanStep(file, place, fixed, n, words[..n - 1], place + FilledLength(fixed, words, n - 1), words[n - 1]);
      assert words[..n] == words[..n - 1] + [words[n - 1]];
    }
  }

  /** What was filled in is read back. */
  lemma ScanUndoesFilling(file: string, place: nat, fixed: seq<string>, words: seq<string>, n: nat)
    requires n < |fixed| && n <= |words| && Separates(fixed) && AllWords(words)
    requires At(file, place, Filled(fixed, words, n))
    ensures Scanned(file, place, fixed, n) == Some(Scan(words[..n], place + |Filled(fixed, words, n)|))
  {
    FilledInPieces(file, place, fixed, words, n);
    ScanPieces(file, place, fixed, words, n);
    LengthOfFilled(fixed, words, n);
  }

  lemma NumeralsAreWords(n: nat)
    ensures IsWord(Dec(n)) && AllDigits(Dec(n)) && Parse(Dec(n)) == n
  {
    ParseDec(n);
    assert forall i :: 0 <= i < |Dec(n)| ==> IsDigit(Dec(n)[i]);
  }

  /** A word that is a number. */
  function Value(word: string): Option<int> {
    if AllDigits(word) then Some(Parse(word)) else None
  }

  lemma HeadIsRead(file: string, place: nat, fixed: seq<string>, words: seq<string>)
    requires |words| < |fixed| && Separates(fixed) && AllWords(words) && At(file, place, Filled(fixed, words, |words|))
    ensures Scanned(file, place, fixed, |words|) == Some(Scan(words, place + |Filled(fixed, words, |words|)|))
  {
    ScanUndoesFilling(file, place, fixed, words, |words|);
    assert words[..|words|] == words;
  }
}
