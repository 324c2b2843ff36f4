/** allegro/proxy/proxy_file.py: `proxies_from_file`. The file system is not
    modelled: the file's content is an input, `None` when the file does not
    exist. */
module ProxyFile {
  import opened Outcomes
  import opened Text

  /** A line has the shape of `host:port` with a dotted IPv4 host: exactly
      three dots and at least one colon. Nothing is trimmed. */
  predicate IsProxyLine(line: string) {
    Count(line, '.') == 3 && ':' in line
  }

  /** The proxy-shaped lines, in order. */
  function ValidLines(lines: seq<string>): (r: seq<string>)
  {
    if lines == [] then []
    else
      var last := lines[|lines| - 1];
      ValidLines(lines[..|lines| - 1]) + (if IsProxyLine(last) then [last] else [])
  }

  /** What `proxies_from_file` returns: the proxy-shaped lines of the file,
      or `[]` for a file that does not exist. */
  function ProxiesFromFile(content: Option<string>): (r: seq<string>)
  {
    if content.None? then [] else ValidLines(SplitLines(content.value))
  }

  /** `proxies_from_file`: split on "\n" and keep the lines of the right
      shape; a malformed line is only logged. */
  method LoadFromFile(content: Option<string>) returns (proxies: seq<string>)
    ensures proxies == ProxiesFromFile(content)
  {
    if content.None? {
      return [];
    }
    var lines := SplitLines(content.value);
    proxies := [];
    var i := 0;
    while i < |lines|
      invariant 0 <= i <= |lines|
      invariant proxies == ValidLines(lines[..i])
    {
      assert lines[..i + 1][..i] == lines[..i];
      if IsProxyLine(lines[i]) {
        proxies := proxies + [lines[i]];
      }
      i := i + 1;
    }
    assert lines[..i] == lines;
  }

  /** Filtering distributes over concatenation, so kept lines keep their
      relative order. */
  lemma {:induction false} ValidLinesAppend(a: seq<string>, b: seq<string>)
    ensures ValidLines(a + b) == ValidLines(a) + ValidLines(b)
    decreases |b|
  {
    if b == [] {
      assert a + b == a;
    } else {
      var b' := b[..|b| - 1];
      assert (a + b)[..|a + b| - 1] == a + b';
      ValidLinesAppend(a, b');
    }
  }

  /** Exactly the proxy-shaped lines are kept, never more lines than there
      were, and all of them when every line is proxy-shaped. */
  lemma {:induction false} ValidLinesSpec(lines: seq<string>)
    ensures |ValidLines(lines)| <= |lines|
    ensures forall x :: x in ValidLines(lines) <==> x in lines && IsProxyLine(x)
    ensures (forall k :: 0 <= k < |lines| ==> IsProxyLine(lines[k])) ==> ValidLines(lines) == lines
  {
    if lines != [] {
      var init := lines[..|lines| - 1];
      ValidLinesSpec(init);
      assert lines == init + [lines[|lines| - 1]];
      if forall k :: 0 <= k < |lines| ==> IsProxyLine(lines[k]) {
        assert forall k :: 0 <= k < |init| ==> init[k] == lines[k];
      }
    }
  }

  /** The loaded proxies hold no newline, are at most one per "\n"-separated
      segment, and a file whose every line is proxy-shaped loads completely. */
  lemma LoadSpec(content: string)
    ensures var r := ProxiesFromFile(Some(content));
      && |r| <= Count(content, '\n') + 1
      && (forall k :: 0 <= k < |r| ==> '\n' !in r[k] && IsProxyLine(r[k]))
      && ((forall k :: 0 <= k < |SplitLines(content)| ==> IsProxyLine(SplitLines(content)[k]))
          ==> |r| == Count(content, '\n') + 1)
  {
    var lines := SplitLines(content);
    SplitLinesSpec(content);
    ValidLinesSpec(lines);
    var r := ValidLines(lines);
    forall k | 0 <= k < |r|
      ensures '\n' !in r[k] && IsProxyLine(r[k])
    {
      assert r[k] in r;
      var j :| 0 <= j < |lines| && lines[j] == r[k];
    }
  }

  /** A file that does not exist, and an empty file, give no proxies; the
      "no proxies found" branch is never taken because splitting always
      yields a segment. */
  lemma EmptyCases()
    ensures ProxiesFromFile(None) == []
    ensures ProxiesFromFile(Some("")) == []
    ensures forall content: string :: |SplitLines(content)| >= 1
  {
    assert SplitLines("") == [""];
    assert !IsProxyLine("");
    assert ValidLines([""]) == ValidLines([]) + [];
  }
}
