/** The string helpers of the connector in roberta/lab.py: the session token,
    the address with its scheme removed, the file name taken from a
    Content-Disposition header, and the textual hot-fixes applied to a
    downloaded program before it is stored. */
module LabText {
  import opened PyBuiltins

  /** What os.urandom(8) hands to generateToken. */
  type TokenBytes = b: seq<byte> | |b| == 8 witness [0, 0, 0, 0, 0, 0, 0, 0]

  /** The token alphabet: digits and capitals without '0', '1', 'I' and 'O',
      which are easy to confuse when the code is typed in. */
  const TokenAlphabet: string := "23456789ABCDEFGHJKLMNPQRSTUVWXYZ"

  /** The characters allowed by the test's pattern `^[0-9A-Z]{8}$`, minus the
      four ambiguous ones. */
  predicate IsTokenChar(c: char) {
    ('0' <= c <= '9' || 'A' <= c <= 'Z') && c != '0' && c != '1' && c != 'I' && c != 'O'
  }

  predicate IsToken(t: string) {
    |t| == 8 && forall i :: 0 <= i < 8 ==> IsTokenChar(t[i])
  }

  /** generateToken: the i-th character is picked from the alphabet by the
      i-th random byte modulo the alphabet's length. */
  function GenerateToken(b: TokenBytes): (t: string)
    ensures IsToken(t)
    ensures forall i :: 0 <= i < 8 ==> t[i] == TokenAlphabet[b[i] % |TokenAlphabet|]
  {
    assert forall k :: 0 <= k < |TokenAlphabet| ==> IsTokenChar(TokenAlphabet[k]);
    seq(8, i requires 0 <= i < 8 => TokenAlphabet[b[i] % |TokenAlphabet|])
  }

  /** The k-th alphabet character, by its four runs '2'..'9', 'A'..'H',
      'J'..'N' and 'P'..'Z'. */
  function AlphabetChar(k: nat): char
    requires k < 32
  {
    if k < 8 then ('2' as int + k) as char
    else if k < 16 then ('A' as int + k - 8) as char
    else if k < 21 then ('J' as int + k - 16) as char
    else ('P' as int + k - 21) as char
  }

  lemma AlphabetRuns()
    ensures |TokenAlphabet| == 32
    ensures forall k :: 0 <= k < 32 ==> TokenAlphabet[k] == AlphabetChar(k)
  {
    assert TokenAlphabet == seq(32, k requires 0 <= k < 32 => AlphabetChar(k));
  }

  /** The byte value that selects a token character. */
  function AlphabetIndex(c: char): (k: byte)
    requires IsTokenChar(c)
    ensures k < 32 && TokenAlphabet[k] == c
  {
    AlphabetRuns();
    if c <= '9' then c as int - '2' as int
    else if c < 'I' then c as int - 'A' as int + 8
    else if c < 'O' then c as int - 'J' as int + 16
    else c as int - 'P' as int + 21
  }

  /** The alphabet holds exactly the token characters. */
  lemma TokenAlphabetIsTokenChars(c: char)
    ensures c in TokenAlphabet <==> IsTokenChar(c)
  {
    if IsTokenChar(c) {
      var k := AlphabetIndex(c);
      assert TokenAlphabet[k] == c;
    }
  }

  /** Every well-formed token can come out of generateToken: the bytes that
      give it back are its characters' positions in the alphabet. */
  lemma {:induction false} EveryTokenIsGenerated(t: string)
    requires IsToken(t)
    ensures exists b: TokenBytes :: GenerateToken(b) == t
  {
    var b: TokenBytes := seq(8, i requires 0 <= i < 8 => AlphabetIndex(t[i]));
    assert forall i :: 0 <= i < 8 ==> b[i] % 32 == b[i];
    assert GenerateToken(b) == t;
  }

  // ---------------------------------------------------------------------------
  // Connector.__init__: `address.split('://', 1)[-1]`.

  const SchemeSeparator: string := "://"

  /** The address without its protocol part: what follows the first "://",
      or the whole address when there is none. */
  function StripScheme(address: string): (host: string)
    ensures !Contains(address, SchemeSeparator) ==> host == address
    ensures Contains(address, SchemeSeparator) ==>
              var i := Find(address, SchemeSeparator);
              address == address[..i] + SchemeSeparator + host && !Contains(address[..i], SchemeSeparator)
  {
    var i := Find(address, SchemeSeparator);
    if i < 0 then address
    else
      assert address == address[..i] + SchemeSeparator + address[i + 3..];
      PrefixBeforeFirstOccurrence(address, SchemeSeparator, i);
      address[i + 3..]
  }

  lemma PrefixBeforeFirstOccurrence(s: string, pat: string, i: nat)
    requires pat != [] && i + |pat| <= |s| && forall j: nat :: j < i ==> !OccursAt(s, pat, j)
    ensures !Contains(s[..i], pat)
  {
    forall j: nat | j <= |s[..i]| ensures !OccursAt(s[..i], pat, j) {
      if OccursAt(s[..i], pat, j) {
        assert s[..i][j..j + |pat|] == s[j..j + |pat|];
        assert OccursAt(s, pat, j);
      }
    }
  }

  /** No occurrence of "://" can straddle the end of a scheme that does not
      contain one, so stripping `scheme://host` gives back `host` whatever the
      host contains: 'http://lab.open-roberta.org' becomes 'lab.open-roberta.org'. */
  lemma StripSchemeOfUrl(scheme: string, host: string)
    requires !Contains(scheme, SchemeSeparator)
    ensures StripScheme(scheme + SchemeSeparator + host) == host
  {
    var a := scheme + SchemeSeparator + host;
    var n := |scheme|;
    assert a[n..n + 3] == SchemeSeparator;
    assert OccursAt(a, SchemeSeparator, n);
    forall j: nat | j < n ensures !OccursAt(a, SchemeSeparator, j) {
      if j + 3 <= n {
        assert a[j..j + 3] == scheme[j..j + 3];
        assert !OccursAt(scheme, SchemeSeparator, j);
      } else if j == n - 1 {
        MismatchAt(a, SchemeSeparator, j, 1);
      } else {
        MismatchAt(a, SchemeSeparator, j, 2);
      }
    }
    assert Find(a, SchemeSeparator) == n;
    assert a[n + 3..] == host;
  }

  // ---------------------------------------------------------------------------
  // Connector.run, download branch: `hdr.split('=')[1] if hdr else 'unknown'`.

  /** The file name under which a downloaded program is saved: the text between
      the first and the second '=' of the Content-Disposition header, 'unknown'
      when the header is missing or empty, IndexError when it has no '='. */
  function DownloadName(hdr: Option<string>): (r: Result<string>)
    ensures (hdr.None? || hdr.value == "") ==> r == Ok("unknown")
    ensures hdr.Some? && hdr.value != "" ==> (r.Err? <==> '=' !in hdr.value)
    ensures r.Err? ==> r.error == IndexError
    ensures r.Ok? && hdr.Some? && hdr.value != "" ==> '=' !in r.value
  {
    if hdr.None? || hdr.value == "" then Ok("unknown")
    else
      var s := hdr.value;
      var i := Find(s, "=");
      if i < 0 then
        assert forall k :: 0 <= k < |s| && s[k] == '=' ==> OccursAt(s, "=", k);
        Err(IndexError)
      else
        assert OccursAt(s, "=", i) && s[i] == '=';
        var rest := s[i + 1..];
        var j := Find(rest, "=");
        var name := if j < 0 then rest else rest[..j];
        assert forall k :: 0 <= k < |rest| && rest[k] == '=' ==> OccursAt(rest, "=", k);
        Ok(name)
  }

  /** A header `pre=name` or `pre=name=more`, with no '=' in `pre` and `name`,
      yields `name`: 'attachment; filename=prog.py' gives 'prog.py'. */
  lemma DownloadNameOfHeader(pre: string, name: string, more: string)
    requires '=' !in pre && '=' !in name
    ensures DownloadName(Some(pre + "=" + name)) == Ok(name)
    ensures DownloadName(Some(pre + "=" + name + "=" + more)) == Ok(name)
  {
    DownloadNameAfterFirst(pre, name);
    CharAbsent(name, '=');
    DownloadNameBeforeMore(pre, name, more);
  }

  /** The name stops at the second '='. */
  lemma DownloadNameBeforeMore(pre: string, name: string, more: string)
    requires '=' !in pre && '=' !in name
    ensures DownloadName(Some(pre + "=" + name + "=" + more)) == Ok(name)
  {
    assert pre + "=" + name + "=" + more == pre + "=" + (name + "=" + more);
    DownloadNameAfterFirst(pre, name + "=" + more);
    FirstOccurrenceOfChar(name, '=', more);
    assert (name + "=" + more)[..|name|] == name;
  }

  /** Everything up to the first '=' is dropped, then the name runs to the
      next '=' or to the end. */
  lemma DownloadNameAfterFirst(pre: string, rest: string)
    requires '=' !in pre
    ensures var j := Find(rest, "=");
            DownloadName(Some(pre + "=" + rest)) == Ok(if j < 0 then rest else rest[..j])
  {
    FirstOccurrenceOfChar(pre, '=', rest);
    assert (pre + "=" + rest)[|pre| + 1..] == rest;
  }

  /** A character that does not occur in `pre` is first found right after it. */
  lemma FirstOccurrenceOfChar(pre: string, c: char, rest: string)
    requires c !in pre
    ensures Find(pre + [c] + rest, [c]) == |pre|
  {
    var s := pre + [c] + rest;
    assert s[|pre|..|pre| + 1] == [c];
    assert OccursAt(s, [c], |pre|);
    forall k: nat | k < |pre| ensures !OccursAt(s, [c], k) {
      assert s[k] == pre[k];
      MismatchAt(s, [c], k, 0);
    }
  }

  /** A character that does not occur is not found. */
  lemma CharAbsent(s: string, c: char)
    requires c !in s
    ensures Find(s, [c]) == -1
  {
    forall k: nat | k <= |s| ensures !OccursAt(s, [c], k) {
      if k < |s| { MismatchAt(s, [c], k, 0); }
    }
  }

  /** os.path.join(home, name) for two components: an absolute name replaces
      the directory, otherwise a '/' is put between them unless `home` is empty
      or already ends with one. */
  function PathJoin(home: string, name: string): (path: string)
    ensures |name| > 0 && name[0] == '/' ==> path == name
    ensures (|name| == 0 || name[0] != '/') ==> |path| >= |name| && path[|path| - |name|..] == name
  {
    if |name| > 0 && name[0] == '/' then name
    else if home == [] || home[|home| - 1] == '/' then home + name
    else home + "/" + name
  }

  // ---------------------------------------------------------------------------
  // Connector._store_code: hot-fixes for programs the server still generates
  // for Python 2.

  const FutureImport: string := "from __future__ import absolute_import\n"
  const XRangeLoop: string := "in xrange("
  const RangeLoop: string := "in range("
  const Python2Shebang: string := "#!/usr/bin/python\n"
  const Python3Shebang: string := "#!/usr/bin/python3\n"

  /** The text `_store_code` writes and returns: the __future__ import line
      removed, `in xrange(` loops turned into `in range(`, and the Python 2
      interpreter line turned into the Python 3 one, in that order. */
  function HotFix(code: string): string {
    var noFuture := Replace(code, FutureImport, "");
    var noXRange := Replace(noFuture, XRangeLoop, RangeLoop);
    Replace(noXRange, Python2Shebang, Python3Shebang)
  }

  /** A character that differs from the pattern rules out an occurrence there. */
  lemma MismatchAt(s: string, pat: string, i: nat, j: nat)
    requires j < |pat| && i + j < |s| && s[i + j] != pat[j]
    ensures !OccursAt(s, pat, i)
  {
  }

  /** A program without any of the three patterns is stored unchanged. */
  lemma HotFixWithoutPatterns(code: string)
    requires !Contains(code, FutureImport) && !Contains(code, XRangeLoop)
    requires !Contains(code, Python2Shebang)
    ensures HotFix(code) == code
  {
    ReplaceAbsent(code, FutureImport, "");
    ReplaceAbsent(code, XRangeLoop, RangeLoop);
    ReplaceAbsent(code, Python2Shebang, Python3Shebang);
  }

  /** A program that starts with the Python 2 interpreter line is stored with
      the Python 3 one, and the rest of it gets the same fixes. */
  lemma {:induction false} HotFixUpgradesShebang(body: string)
    ensures HotFix(Python2Shebang + body) == Python3Shebang + HotFix(body)
  {
    var p := Python2Shebang;
    var code := p + body;
    forall i: nat | i < |p| ensures !OccursAt(code, FutureImport, i) {
      MismatchAt(code, FutureImport, i, 0);
    }
    ReplaceKeepsPrefix(p, body, FutureImport, "");
    var b1 := Replace(body, FutureImport, "");
    var c1 := p + b1;
    forall i: nat | i < |p| ensures !OccursAt(c1, XRangeLoop, i) {
      if i == 8 { MismatchAt(c1, XRangeLoop, i, 2); } else { MismatchAt(c1, XRangeLoop, i, 0); }
    }
    ReplaceKeepsPrefix(p, b1, XRangeLoop, RangeLoop);
    var b2 := Replace(b1, XRangeLoop, RangeLoop);
    ReplaceAtStart(b2, Python2Shebang, Python3Shebang);
  }
}
