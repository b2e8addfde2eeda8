/** The runtime's string formatter `_format`: the format string is copied
    and each `{}` in it is replaced by the next string argument.

    C strings are NUL-terminated, so the format and the arguments are
    modelled as strings without a NUL character, and the buffer the formatter
    returns as the string together with its terminator. The variadic
    arguments are a sequence; the buffer's `malloc`/`realloc` growth is
    sequence append. */
module Format {
  import opened Seqs

  /** A C string's contents: no NUL before its end. */
  predicate NoNul(s: string) {
    forall i :: 0 <= i < |s| ==> s[i] != '\0'
  }

  predicate AllNoNul(args: seq<string>) {
    forall k :: 0 <= k < |args| ==> NoNul(args[k])
  }

  /** `s` begins with a placeholder `{}`. */
  predicate StartsWithPlaceholder(s: string) {
    |s| > 1 && s[0] == '{' && s[1] == '}'
  }

  /** The number of placeholders the formatter consumes in `s`, scanning from
      the left. */
  function Placeholders(s: string): nat
    decreases |s|
  {
    if |s| == 0 then 0
    else if StartsWithPlaceholder(s) then 1 + Placeholders(s[2..])
    else Placeholders(s[1..])
  }

  /** What the main loop appends for the rest `s` of the format: a
      placeholder becomes the next argument, a `{` not followed by `}` is
      dropped, and any other character is copied. */
  function Expand(s: string, args: seq<string>): string
    requires Placeholders(s) <= |args|
    decreases |s|
  {
    if |s| == 0 then []
    else if StartsWithPlaceholder(s) then args[0] + Expand(s[2..], args[1..])
    else if s[0] == '{' then Expand(s[1..], args)
    else [s[0]] + Expand(s[1..], args)
  }

  /** Dropping the first character never finds more placeholders. */
  lemma PlaceholdersTail(s: string)
    requires |s| > 0
    ensures Placeholders(s[1..]) <= Placeholders(s)
  {
    if StartsWithPlaceholder(s) {
      assert s[1..][1..] == s[2..];
    }
  }

  /** The formatted text, without the terminator: the first character is
      copied as it is unless the format begins with a placeholder, so a `{`
      there is kept. */
  function Formatted(fmt: string, args: seq<string>): string
    requires Placeholders(fmt) <= |args|
  {
    if |fmt| == 0 then []
    else if StartsWithPlaceholder(fmt) then Expand(fmt, args)
    else
      PlaceholdersTail(fmt);
      [fmt[0]] + Expand(fmt[1..], args)
  }

  /** One iteration of the main loop at position `p`, with `next` the
      index of the next argument: a placeholder. */
  lemma StepPlaceholder(fmt: string, p: nat, args: seq<string>, next: nat)
    requires p + 1 < |fmt| && fmt[p] == '{' && fmt[p + 1] == '}'
    requires next + Placeholders(fmt[p..]) <= |args|
    ensures next < |args| && next + 1 + Placeholders(fmt[p + 2..]) <= |args|
    ensures Expand(fmt[p..], args[next..]) == args[next] + Expand(fmt[p + 2..], args[next + 1..])
  {
    var rest := fmt[p..];
    assert StartsWithPlaceholder(rest) && rest[2..] == fmt[p + 2..];
    assert args[next..][0] == args[next] && args[next..][1..] == args[next + 1..];
  }

  /** One iteration at a `{` that is not a placeholder: nothing is added. */
  lemma StepLoneBrace(fmt: string, p: nat, args: seq<string>, next: nat)
    requires p < |fmt| && fmt[p] == '{' && !(p + 1 < |fmt| && fmt[p + 1] == '}')
    requires next + Placeholders(fmt[p..]) <= |args|
    ensures next + Placeholders(fmt[p + 1..]) <= |args|
    ensures Expand(fmt[p..], args[next..]) == Expand(fmt[p + 1..], args[next..])
  {
    var rest := fmt[p..];
    assert !StartsWithPlaceholder(rest) && rest[1..] == fmt[p + 1..];
  }

  /** One iteration at any other character: it is copied. */
  lemma StepCopy(fmt: string, p: nat, args: seq<string>, next: nat)
    requires p < |fmt| && fmt[p] != '{'
    requires next + Placeholders(fmt[p..]) <= |args|
    ensures next + Placeholders(fmt[p + 1..]) <= |args|
    ensures Expand(fmt[p..], args[next..]) == [fmt[p]] + Expand(fmt[p + 1..], args[next..])
  {
    var rest := fmt[p..];
    assert !StartsWithPlaceholder(rest) && rest[1..] == fmt[p + 1..];
  }

  /** `_format(fmt, args...)`: the returned buffer, terminator included. */
  method FormatString(fmt: string, args: seq<string>) returns (result: string)
    requires NoNul(fmt) && AllNoNul(args)
    requires Placeholders(fmt) <= |args|
    ensures result == Formatted(fmt, args) + ['\0']
    ensures |fmt| == 0 ==> result == ['\0']
  {
    if |fmt| == 0 {
      return "\0";
    }
    result := [];
    var size := 0;
    var p := 0;
    if fmt[0] != '{' || !(1 < |fmt| && fmt[1] == '}') {
      result := [fmt[0]];
      size := size + 1;
      p := p + 1;
      PlaceholdersTail(fmt);
    }
    var next := 0;
    assert args[next..] == args;
    while p < |fmt|
      invariant 0 <= p <= |fmt|
      invariant size == |result|
      invariant next + Placeholders(fmt[p..]) <= |args|
      invariant result + Expand(fmt[p..], args[next..]) == Formatted(fmt, args)
    {
      if fmt[p] == '{' {
        if p + 1 < |fmt| && fmt[p + 1] == '}' {
          StepPlaceholder(fmt, p, args, next);
          var arg := args[next];
          AppendAssoc(result, arg, Expand(fmt[p + 2..], args[next + 1..]));
          next := next + 1;
          result := result + arg;
          size := size + |arg|;
          p := p + 1;  // the '}'
        } else {
          StepLoneBrace(fmt, p, args, next);
        }
      } else {
        StepCopy(fmt, p, args, next);
        AppendAssoc(result, [fmt[p]], Expand(fmt[p + 1..], args[next..]));
        result := result + [fmt[p]];
        size := size + 1;
      }
      p := p + 1;
    }
    result := result + ['\0'];
  }

  // ---------------------------------------------------------------------
  // Properties of the formatted text

  /** The sum of the lengths of `args`. */
  function TotalLength(args: seq<string>): nat {
    if args == [] then 0 else |args[0]| + TotalLength(args[1..])
  }

  /** The number of `{` characters in `s`. */
  function Braces(s: string): nat {
    if s == [] then 0 else (if s[0] == '{' then 1 else 0) + Braces(s[1..])
  }

  /** `s` does not end in `{`, so scanning it never swallows a character
      from what follows it. */
  predicate EndsClean(s: string) {
    s == [] || s[|s| - 1] != '{'
  }

  lemma {:induction false} PlaceholdersAppend(a: string, c: string)
    requires EndsClean(a)
    ensures Placeholders(a + c) == Placeholders(a) + Placeholders(c)
    decreases |a|
  {
    if a == [] {
      assert a + c == c;
    } else if StartsWithPlaceholder(a) {
      assert (a + c)[2..] == a[2..] + c;
      PlaceholdersAppend(a[2..], c);
    } else {
      assert (a + c)[1..] == a[1..] + c;
      if |a| == 1 {
        assert !StartsWithPlaceholder(a + c);
      }
      PlaceholdersAppend(a[1..], c);
    }
  }

  /** The loop over `a + c` is the loop over `a` followed by the loop over
      `c` with the arguments `a` did not use. */
  lemma {:induction false} ExpandAppend(a: string, c: string, args: seq<string>)
    requires EndsClean(a)
    requires Placeholders(a + c) <= |args|
    ensures Placeholders(a) + Placeholders(c) <= |args|
    ensures Expand(a + c, args) == Expand(a, args) + Expand(c, args[Placeholders(a)..])
    decreases |a|
  {
    PlaceholdersAppend(a, c);
    var f := a + c;
    if a == [] {
      assert f == c && args[0..] == args;
    } else if StartsWithPlaceholder(a) {
      assert f[0] == '{' && f[1] == '}' && f[2..] == a[2..] + c;
      ExpandAppend(a[2..], c, args[1..]);
      assert args[1..][Placeholders(a[2..])..] == args[Placeholders(a)..];
      assert Expand(f, args) == args[0] + Expand(a[2..] + c, args[1..]);
      AppendAssoc(args[0], Expand(a[2..], args[1..]), Expand(c, args[Placeholders(a)..]));
    } else {
      assert f[0] == a[0] && f[1..] == a[1..] + c;
      assert !StartsWithPlaceholder(f) by {
        if |a| == 1 {
          assert a[0] != '{';
        } else {
          assert f[1] == a[1];
        }
      }
      ExpandAppend(a[1..], c, args);
      if a[0] == '{' {
        assert Expand(f, args) == Expand(a[1..] + c, args);
      } else {
        assert Expand(f, args) == [a[0]] + Expand(a[1..] + c, args);
        AppendAssoc([a[0]], Expand(a[1..], args), Expand(c, args[Placeholders(a)..]));
      }
    }
  }

  /** Without any `{`, the text is copied verbatim. */
  lemma {:induction false} ExpandVerbatim(s: string, args: seq<string>)
    requires Braces(s) == 0
    ensures Placeholders(s) == 0
    ensures Expand(s, args) == s
    decreases |s|
  {
    if s != [] {
      assert s[0] != '{';
      ExpandVerbatim(s[1..], args);
    }
  }

  lemma VerbatimFormat(fmt: string, args: seq<string>)
    requires Braces(fmt) == 0
    ensures Placeholders(fmt) == 0
    ensures Formatted(fmt, args) == fmt
  {
    ExpandVerbatim(fmt, args);
    if fmt != [] {
      ExpandVerbatim(fmt[1..], args);
    }
  }

  /** Pieces of literal text joined by placeholders: `p0 {} p1 {} ... pk`. */
  function Template(pieces: seq<string>): string
    requires |pieces| > 0
  {
    if |pieces| == 1 then pieces[0] else pieces[0] + "{}" + Template(pieces[1..])
  }

  /** The same pieces with the arguments in place of the placeholders. */
  function Interleave(pieces: seq<string>, args: seq<string>): string
    requires |pieces| > 0 && |args| >= |pieces| - 1
  {
    if |pieces| == 1 then pieces[0]
    else pieces[0] + args[0] + Interleave(pieces[1..], args[1..])
  }

  predicate BraceFree(pieces: seq<string>) {
    forall k :: 0 <= k < |pieces| ==> Braces(pieces[k]) == 0
  }

  lemma {:induction false} BracesZeroEndsClean(s: string)
    requires Braces(s) == 0
    ensures EndsClean(s)
    ensures forall i :: 0 <= i < |s| ==> s[i] != '{'
    decreases |s|
  {
    if s != [] {
      BracesZeroEndsClean(s[1..]);
      assert forall i :: 1 <= i < |s| ==> s[i] == s[1..][i - 1];
    }
  }

  /** Placeholder substitution: every placeholder of a template is replaced
      by the next argument, in order, and a template of k + 1 pieces consumes
      exactly k arguments. */
  lemma {:induction false} ExpandTemplate(pieces: seq<string>, args: seq<string>)
    requires |pieces| > 0 && BraceFree(pieces)
    requires |args| >= |pieces| - 1
    ensures Placeholders(Template(pieces)) == |pieces| - 1
    ensures Expand(Template(pieces), args) == Interleave(pieces, args)
    decreases |pieces|
  {
    var p := pieces[0];
    ExpandVerbatim(p, args);
    BracesZeroEndsClean(p);
    if |pieces| > 1 {
      var rest := Template(pieces[1..]);
      var tail := "{}" + rest;
      assert Template(pieces) == p + tail;
      ExpandTemplate(pieces[1..], args[1..]);
      assert StartsWithPlaceholder(tail) && tail[2..] == rest;
      PlaceholdersAppend(p, tail);
      ExpandAppend(p, tail, args);
      assert args[Placeholders(p)..] == args;
    }
  }

  /** Only the first `Placeholders(s)` arguments matter. */
  lemma {:induction false} ExpandUsesPlaceholderArgs(s: string, args: seq<string>)
    requires Placeholders(s) <= |args|
    ensures Expand(s, args) == Expand(s, args[..Placeholders(s)])
    decreases |s|
  {
    if |s| == 0 {
    } else if StartsWithPlaceholder(s) {
      ExpandUsesPlaceholderArgs(s[2..], args[1..]);
      assert args[..Placeholders(s)][1..] == args[1..][..Placeholders(s[2..])];
    } else {
      ExpandUsesPlaceholderArgs(s[1..], args);
    }
  }

  lemma FormattedUsesPlaceholderArgs(fmt: string, args: seq<string>)
    requires Placeholders(fmt) <= |args|
    ensures Formatted(fmt, args) == Formatted(fmt, args[..Placeholders(fmt)])
  {
    if fmt != [] {
      ExpandUsesPlaceholderArgs(fmt, args);
      if !StartsWithPlaceholder(fmt) {
        ExpandUsesPlaceholderArgs(fmt[1..], args);
      }
    }
  }

  lemma {:induction false} TotalLengthSplit(args: seq<string>, k: nat)
    requires k < |args|
    ensures TotalLength(args[..k + 1]) == |args[0]| + TotalLength(args[1..][..k])
  {
    assert args[..k + 1][1..] == args[1..][..k];
  }

  /** Output length: every `{` is dropped, as is the `}` of each placeholder,
      every other character is copied, and the consumed arguments are
      inserted whole. */
  lemma {:induction false} ExpandLength(s: string, args: seq<string>)
    requires Placeholders(s) <= |args|
    ensures Braces(s) + Placeholders(s) <= |s|
    ensures |Expand(s, args)| ==
            |s| - Braces(s) - Placeholders(s) + TotalLength(args[..Placeholders(s)])
    decreases |s|
  {
    if |s| == 0 {
    } else if StartsWithPlaceholder(s) {
      ExpandLength(s[2..], args[1..]);
      assert s[1..][1..] == s[2..];
      TotalLengthSplit(args, Placeholders(s[2..]));
    } else {
      ExpandLength(s[1..], args);
    }
  }

  /** The format begins with a `{` that is not a placeholder: it is kept. */
  predicate LeadingLoneBrace(fmt: string) {
    |fmt| > 0 && fmt[0] == '{' && !StartsWithPlaceholder(fmt)
  }

  lemma FormattedLength(fmt: string, args: seq<string>)
    requires Placeholders(fmt) <= |args|
    ensures Braces(fmt) + Placeholders(fmt) <= |fmt| + (if LeadingLoneBrace(fmt) then 1 else 0)
    ensures |Formatted(fmt, args)| ==
            |fmt| - Braces(fmt) - Placeholders(fmt) + (if LeadingLoneBrace(fmt) then 1 else 0) +
            TotalLength(args[..Placeholders(fmt)])
  {
    if fmt == [] {
    } else if StartsWithPlaceholder(fmt) {
      ExpandLength(fmt, args);
    } else {
      ExpandLength(fmt[1..], args);
    }
  }

  /** No NUL appears before the terminator. */
  lemma {:induction false} ExpandNoNul(s: string, args: seq<string>)
    requires Placeholders(s) <= |args|
    requires NoNul(s) && AllNoNul(args)
    ensures NoNul(Expand(s, args))
    decreases |s|
  {
    if |s| == 0 {
    } else if StartsWithPlaceholder(s) {
      assert NoNul(s[2..]) by {
        assert forall i :: 0 <= i < |s| - 2 ==> s[2..][i] == s[i + 2];
      }
      assert AllNoNul(args[1..]) by {
        assert forall k :: 0 <= k < |args| - 1 ==> args[1..][k] == args[k + 1];
      }
      ExpandNoNul(s[2..], args[1..]);
      assert NoNul(args[0]);
    } else {
      assert NoNul(s[1..]) by {
        assert forall i :: 0 <= i < |s| - 1 ==> s[1..][i] == s[i + 1];
      }
      ExpandNoNul(s[1..], args);
    }
  }

  lemma FormattedTerminated(fmt: string, args: seq<string>)
    requires Placeholders(fmt) <= |args|
    requires NoNul(fmt) && AllNoNul(args)
    ensures NoNul(Formatted(fmt, args))
  {
    if fmt == [] {
    } else if StartsWithPlaceholder(fmt) {
      ExpandNoNul(fmt, args);
    } else {
      assert NoNul(fmt[1..]) by {
        assert forall i :: 0 <= i < |fmt| - 1 ==> fmt[1..][i] == fmt[i + 1];
      }
      ExpandNoNul(fmt[1..], args);
    }
  }

  lemma SkipBrace(c: string, b: string, args: seq<string>)
    requires c == ['{'] + b
    requires b == [] || b[0] != '}'
    ensures Placeholders(c) == Placeholders(b)
    ensures Placeholders(c) <= |args| ==> Expand(c, args) == Expand(b, args)
  {
    assert c[1..] == b;
    assert !StartsWithPlaceholder(c);
  }

  /** The formatter is its main loop run over the whole format, except
      that a `{` at the first position is kept even when it is not a
      placeholder. */
  lemma FormattedIsExpand(fmt: string, args: seq<string>)
    requires Placeholders(fmt) <= |args|
    ensures !LeadingLoneBrace(fmt) ==> Formatted(fmt, args) == Expand(fmt, args)
    ensures LeadingLoneBrace(fmt) ==> Formatted(fmt, args) == ['{'] + Expand(fmt, args)
  {
  }

  /** In the loop, a `{` not followed by `}` is skipped: `c` is such a `{`
      in front of `b`, and removing it after any prefix `a`, even one that
      ends in `{`, changes nothing. */
  lemma {:induction false} ExpandLoneBrace(a: string, b: string, c: string, args: seq<string>)
    requires c == ['{'] + b && (b == [] || b[0] != '}')
    requires Placeholders(a + c) <= |args|
    ensures Placeholders(a + b) == Placeholders(a + c)
    ensures Expand(a + c, args) == Expand(a + b, args)
    decreases |a|
  {
    var f1 := a + c;
    var f2 := a + b;
    if a == [] {
      assert f1 == c && f2 == b;
      SkipBrace(c, b, args);
    } else if StartsWithPlaceholder(a) {
      DropAppend(a, c, 2);
      DropAppend(a, b, 2);
      assert StartsWithPlaceholder(f1) && StartsWithPlaceholder(f2);
      ExpandLoneBrace(a[2..], b, c, args[1..]);
    } else {
      assert !StartsWithPlaceholder(f1) && !StartsWithPlaceholder(f2) by {
        if |a| == 1 {
          assert f1[1] == '{';
          assert |f2| > 1 ==> f2[1] == b[0];
        } else {
          assert f1[1] == a[1] && f2[1] == a[1];
        }
      }
      DropAppend(a, c, 1);
      DropAppend(a, b, 1);
      assert f1[0] == a[0] && f2[0] == a[0];
      ExpandLoneBrace(a[1..], b, c, args);
    }
  }

  /** A `{` after the first position that is not followed by `}`
      contributes nothing: removing it leaves the output unchanged. */
  lemma LoneBraceDropped(a: string, b: string, c: string, args: seq<string>)
    requires |a| > 0
    requires c == ['{'] + b && (b == [] || b[0] != '}')
    requires Placeholders(a + c) <= |args|
    ensures Placeholders(a + b) == Placeholders(a + c)
    ensures Formatted(a + c, args) == Formatted(a + b, args)
  {
    ExpandLoneBrace(a, b, c, args);
    var f1 := a + c;
    var f2 := a + b;
    assert LeadingLoneBrace(f1) <==> LeadingLoneBrace(f2) by {
      assert f1[0] == a[0] && f2[0] == a[0];
      if |a| == 1 {
        assert f1[1] == '{';
        assert |f2| > 1 ==> f2[1] == b[0];
      } else {
        assert f1[1] == a[1] && f2[1] == a[1];
      }
    }
    FormattedIsExpand(f1, args);
    FormattedIsExpand(f2, args);
  }

  /** `_format("{{b")` and `_format("{b")` agree: the second `{` of a run is
      dropped like any other lone `{` after the first position. */
  lemma DoubleBraceExample(args: seq<string>)
    ensures Formatted("{{b", args) == Formatted("{b", args) == "{b"
  {
    LoneBraceDropped("{", "b", "{b", args);
    assert "{" + "{b" == "{{b" && "{" + "b" == "{b";
    LeadingBraceKept("{b", args);
  }

  /** A `{` at the first position that is not a placeholder is kept. */
  lemma LeadingBraceKept(fmt: string, args: seq<string>)
    requires LeadingLoneBrace(fmt)
    requires Placeholders(fmt) <= |args|
    ensures |Formatted(fmt, args)| > 0 && Formatted(fmt, args)[0] == '{'
  {
  }

  /** The documented example: `_format("Hello {}!\n", "world")`. */
  lemma HelloWorld(fmt: string, args: seq<string>)
    requires fmt == "Hello {}!\n" && args == ["world"]
    ensures Placeholders(fmt) == 1
    ensures Formatted(fmt, args) == "Hello world!\n"
  {
    var pieces := ["Hello ", "!\n"];
    assert Braces(pieces[0]) == 0 && Braces(pieces[1]) == 0;
    ExpandTemplate(pieces, args);
    assert Template(pieces) == fmt;
    FormattedIsExpand(fmt, args);
    assert Interleave(pieces, args) == "Hello " + "world" + "!\n";
  }
}
