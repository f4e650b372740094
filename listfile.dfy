/**
 * `download-list.txt`, the to-do list of main_windows_strict.py and of its
 * C++ port, modelled as the sequence of its lines without their '\n'
 * terminators. `FileText` gives the text a file of such lines holds, and
 * the lemmas below tie the two views together: reading that text line by
 * line gives the lines back, and writing `text + "\n"` at the end of the
 * file adds the lines of `text`.
 */
module ListFile {
  import opened Wrappers
  import opened Text

  const NL: char := '\n'

  /** The lines of a list file that may not exist yet; a missing file reads as empty. */
  function Lines(file: Option<seq<string>>): seq<string> {
    if file.Some? then file.value else []
  }

  /** Lines as a file holds them: none of them contains a line break. */
  predicate SingleLines(lines: seq<string>) {
    forall i :: 0 <= i < |lines| ==> NL !in lines[i]
  }

  /** The text of a file holding `lines`, each ended by '\n' as this program writes them. */
  function FileText(lines: seq<string>): string {
    if lines == [] then [] else lines[0] + [NL] + FileText(lines[1..])
  }

  /** The lines that writing `text + "\n"` at the end of a file adds to it. */
  function Written(text: string): (r: seq<string>)
    ensures |r| >= 1
  {
    Split(text, NL)
  }

  /**
   * The lines, each passed through `clean`, that are non-empty afterwards,
   * in order.
   */
  function NonBlank(lines: seq<string>, clean: string -> string): (r: seq<string>)
    ensures |r| <= |lines|
    ensures forall i :: 0 <= i < |r| ==> r[i] != []
  {
    if lines == [] then []
    else (if clean(lines[0]) == [] then [] else [clean(lines[0])]) + NonBlank(lines[1..], clean)
  }

  function Verbatim(s: string): string { s }

  /**
   * The Python side's reading of the file,
   * `[line.strip() for line in f if line.strip()]`: the stripped non-empty
   * lines, in file order.
   */
  function Urls(lines: seq<string>): seq<string> {
    NonBlank(lines, Strip)
  }

  /** The C++ side's `ReadList`: the non-empty lines as they stand, in file order. */
  function ListLines(lines: seq<string>): seq<string> {
    NonBlank(lines, Verbatim)
  }

  lemma {:induction false} NonBlankConcat(a: seq<string>, b: seq<string>, clean: string -> string)
    ensures NonBlank(a + b, clean) == NonBlank(a, clean) + NonBlank(b, clean)
  {
    if a == [] {
      assert a + b == b;
    } else {
      assert (a + b)[0] == a[0];
      assert (a + b)[1..] == a[1..] + b;
      NonBlankConcat(a[1..], b, clean);
    }
  }

  /** Each line yields exactly its cleaned form, or nothing when that is empty. */
  lemma {:induction false} NonBlankMembers(lines: seq<string>, clean: string -> string, u: string)
    ensures u in NonBlank(lines, clean) <==> u != [] && exists i :: 0 <= i < |lines| && clean(lines[i]) == u
  {
    if lines != [] {
      NonBlankMembers(lines[1..], clean, u);
      if exists i :: 0 <= i < |lines| && clean(lines[i]) == u {
        var i :| 0 <= i < |lines| && clean(lines[i]) == u;
        if i > 0 {
          assert lines[1..][i - 1] == lines[i];
        }
      }
      if exists i :: 0 <= i < |lines[1..]| && clean(lines[1..][i]) == u {
        var i :| 0 <= i < |lines[1..]| && clean(lines[1..][i]) == u;
        assert lines[i + 1] == lines[1..][i];
      }
    }
  }

  /** A single line reads as itself when it is non-empty and as nothing otherwise. */
  lemma NonBlankSingle(u: string, clean: string -> string)
    ensures NonBlank([u], clean) == if clean(u) == [] then [] else [clean(u)]
  {
    assert [u][1..] == [];
  }

  /** Splitting the text of a file gives its lines and the empty rest after the final '\n'. */
  lemma {:induction false} SplitFileText(lines: seq<string>)
    requires SingleLines(lines)
    ensures Split(FileText(lines), NL) == lines + [[]]
  {
    if lines != [] {
      assert SingleLines(lines[1..]) by {
        forall i | 0 <= i < |lines[1..]| ensures NL !in lines[1..][i] {
          assert lines[1..][i] == lines[i + 1];
        }
      }
      SplitFileText(lines[1..]);
      SplitAtSep(lines[0], FileText(lines[1..]), NL);
      assert lines == [lines[0]] + lines[1..];
    }
  }

  /**
   * Reading the text of a file line by line, whatever each line is cleaned
   * with, is reading its lines: the empty rest after the final '\n' yields
   * nothing. So `Urls` and `ListLines` are what the two programs read.
   */
  lemma ReadingFileText(lines: seq<string>, clean: string -> string)
    requires SingleLines(lines) && clean([]) == []
    ensures NonBlank(Split(FileText(lines), NL), clean) == NonBlank(lines, clean)
  {
    SplitFileText(lines);
    NonBlankConcat(lines, [[]], clean);
    NonBlankSingle([], clean);
  }

  lemma {:induction false} FileTextConcat(a: seq<string>, b: seq<string>)
    ensures FileText(a + b) == FileText(a) + FileText(b)
  {
    if a == [] {
      assert a + b == b;
    } else {
      assert (a + b)[0] == a[0];
      assert (a + b)[1..] == a[1..] + b;
      FileTextConcat(a[1..], b);
    }
  }

  /** The text of non-empty list of pieces is their '\n'-join with a final '\n'. */
  lemma {:induction false} FileTextJoin(ps: seq<string>)
    requires |ps| >= 1
    ensures FileText(ps) == Join(ps, NL) + [NL]
  {
    if |ps| > 1 {
      FileTextJoin(ps[1..]);
    }
  }

  /**
   * Writing `text + "\n"` at the end of a file adds exactly the lines of
   * `text`, and those are proper lines.
   */
  lemma WriteAppends(lines: seq<string>, text: string)
    ensures FileText(lines + Written(text)) == FileText(lines) + text + [NL]
    ensures SingleLines(Written(text))
  {
    FileTextConcat(lines, Written(text));
    FileTextJoin(Written(text));
    JoinSplit(text, NL);
    SplitPiecesSepFree(text, NL);
  }

  /** A text without a line break is written as one line. */
  lemma WrittenSingle(u: string)
    requires NL !in u
    ensures Written(u) == [u]
  {
    SplitNoSep(u, NL);
  }

  /** A text with one line break in it is written as two lines. */
  lemma WrittenTwoLines(y: string, x: string)
    requires NL !in y && NL !in x
    ensures Written(y + [NL] + x) == [y, x]
  {
    SplitAtSep(y, x, NL);
    SplitNoSep(x, NL);
  }

  /** On a file of already-stripped lines, the two readings agree. */
  lemma {:induction false} ReadingsAgree(lines: seq<string>)
    requires forall i :: 0 <= i < |lines| ==> Strip(lines[i]) == lines[i]
    ensures Urls(lines) == ListLines(lines)
  {
    if lines != [] {
      ReadingsAgree(lines[1..]);
    }
  }

  predicate NoDup(s: seq<string>) {
    forall i, j :: 0 <= i < j < |s| ==> s[i] != s[j]
  }
}
