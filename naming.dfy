/**
 * Names derived from the `--file` argument: the run's log directory
 * `log-of-<stem>` and the per-epoch checkpoint file
 * `log-of-<stem>/epoch_<epoch>.pkl`, where `<stem>` is the file's basename
 * cut at its first '.'.
 */
module Naming {

  /** POSIX `os.path.basename`: the part of `p` after its last '/'. */
  function Basename(p: string): (b: string)
    ensures '/' !in b
  {
    if p == [] then []
    else if p[|p| - 1] == '/' then []
    else Basename(p[..|p| - 1]) + [p[|p| - 1]]
  }

  /** The basename is the longest suffix of the path without a '/'. */
  lemma {:induction false} BasenameIsLastComponent(p: string)
    ensures var b := Basename(p);
      && |b| <= |p| && p[|p| - |b|..] == b
      && (|b| < |p| ==> p[|p| - |b| - 1] == '/')
  {
    if p == [] {
    } else if p[|p| - 1] == '/' {
      assert Basename(p) == [];
      assert p[|p|..] == [];
    } else {
      var q := p[..|p| - 1];
      var c := p[|p| - 1];
      assert p == q + [c];
      BasenameIsLastComponent(q);
      var b' := Basename(q);
      var b := Basename(p);
      assert b == b' + [c];
      var start := |q| - |b'|;
      assert |p| - |b| == start;
      assert p[start..] == q[start..] + [c];
      if |b| < |p| {
        assert p[start - 1] == q[start - 1];
      }
    }
  }

  /** `s.split(".")[0]`: the part of `s` before its first '.'. */
  function BeforeFirstDot(s: string): (t: string)
    ensures '.' !in t
    ensures |t| <= |s| && s[..|t|] == t
    ensures |t| < |s| ==> s[|t|] == '.'
  {
    if s == [] then []
    else if s[0] == '.' then []
    else [s[0]] + BeforeFirstDot(s[1..])
  }

  /** The model file's stem: `os.path.basename(file).split(".")[0]`. */
  function Stem(file: string): (stem: string)
    ensures '.' !in stem && '/' !in stem
  {
    BeforeFirstDot(Basename(file))
  }

  /**
   * The run's log directory, created once at startup: `log-of-` and the stem,
   * a single path component.
   */
  function LogDir(file: string): (d: string)
    ensures |d| >= 7 && d[..7] == "log-of-"
    ensures '/' !in d
  {
    "log-of-" + Stem(file)
  }

  function DigitChar(d: nat): (c: char)
    requires d < 10
    ensures '0' <= c <= '9'
  {
    "0123456789"[d]
  }

  predicate IsDigit(c: char) {
    '0' <= c <= '9'
  }

  /** Python's `str` of a non-negative integer: decimal, no leading zeros. */
  function Decimal(n: nat): (d: string)
    ensures |d| >= 1
    ensures forall i :: 0 <= i < |d| ==> IsDigit(d[i])
    ensures d[0] == '0' ==> n == 0
  {
    if n < 10 then [DigitChar(n)] else Decimal(n / 10) + [DigitChar(n % 10)]
  }

  function DigitValue(c: char): nat
    requires IsDigit(c)
  {
    (c as int) - ('0' as int)
  }

  /** Reads a string of decimal digits back as a number. */
  function ParseDecimal(d: string): nat
    requires forall i :: 0 <= i < |d| ==> IsDigit(d[i])
  {
    if d == [] then 0
    else ParseDecimal(d[..|d| - 1]) * 10 + DigitValue(d[|d| - 1])
  }

  /** Decimal printing is undone by parsing. */
  lemma {:induction false} DecimalRoundTrip(n: nat)
    ensures ParseDecimal(Decimal(n)) == n
  {
    if n >= 10 {
      var d := Decimal(n);
      assert d[..|d| - 1] == Decimal(n / 10);
      DecimalRoundTrip(n / 10);
    }
  }

  /** Different epochs print differently. */
  lemma DecimalInjective(a: nat, b: nat)
    requires Decimal(a) == Decimal(b)
    ensures a == b
  {
    DecimalRoundTrip(a);
    DecimalRoundTrip(b);
  }

  /**
   * `"log-of-{}/epoch_{}.pkl".format(stem, epoch)`: two path components, the
   * only '/' standing right after the log directory.
   */
  function CheckpointPath(file: string, epoch: nat): (p: string)
    ensures |p| > |LogDir(file)| + 1
    ensures forall i :: 0 <= i < |p| ==> (p[i] == '/' <==> i == |LogDir(file)|)
  {
    var dir, name := LogDir(file), FileName(epoch);
    var p := dir + "/" + name;
    assert forall i :: 0 <= i < |dir| ==> p[i] == dir[i];
    assert forall i :: |dir| < i < |p| ==> p[i] == name[i - |dir| - 1];
    p
  }

  /** The checkpoint's name inside the log directory: `epoch_<e>.pkl`. */
  function FileName(epoch: nat): (f: string)
    ensures |f| >= 11 && f[..6] == "epoch_" && f[|f| - 4..] == ".pkl"
    ensures '/' !in f
  {
    var d := Decimal(epoch);
    var f := "epoch_" + d + ".pkl";
    forall i | 0 <= i < |f| ensures f[i] != '/' {
      if 6 <= i < 6 + |d| {
        assert f[i] == d[i - 6];
      }
    }
    f
  }

  /** Every checkpoint lies directly inside the log directory made at startup. */
  lemma CheckpointInLogDir(file: string, epoch: nat)
    ensures CheckpointPath(file, epoch)[..|LogDir(file)| + 1] == LogDir(file) + "/"
    ensures CheckpointPath(file, epoch)[|LogDir(file)| + 1..] == FileName(epoch)
  {
  }

  /** A common prefix and suffix can be cancelled. */
  lemma CancelAffixes(a: string, x: string, y: string, z: string)
    requires a + x + z == a + y + z
    ensures x == y
  {
    var s := a + x + z;
    assert |x| == |y|;
    assert x == s[|a|..|a| + |x|];
    assert y == (a + y + z)[|a|..|a| + |y|];
  }

  /** Distinct epochs are saved to distinct files. */
  lemma CheckpointPathInjective(file: string, e1: nat, e2: nat)
    requires CheckpointPath(file, e1) == CheckpointPath(file, e2)
    ensures e1 == e2
  {
    var dir := LogDir(file) + "/";
    CancelAffixes(dir, FileName(e1), FileName(e2), "");
    CancelAffixes("epoch_", Decimal(e1), Decimal(e2), ".pkl");
    DecimalInjective(e1, e2);
  }

  /** The default `--file net.py` gives `log-of-net` and `log-of-net/epoch_0.pkl`. */
  lemma DefaultFileNames()
    ensures LogDir("net.py") == "log-of-net"
    ensures CheckpointPath("net.py", 0) == "log-of-net/epoch_0.pkl"
  {
    NetBasename();
    NetStem();
    assert LogDir("net.py") == "log-of-net";
    assert Decimal(0) == "0";
    assert FileName(0) == "epoch_0.pkl";
    assert "log-of-net" + "/" + "epoch_0.pkl" == "log-of-net/epoch_0.pkl";
  }

  lemma NetBasename()
    ensures Basename("net.py") == "net.py"
  {
    assert "net.py"[..5] == "net.p" && "net.p"[..4] == "net." && "net."[..3] == "net";
    assert "net"[..2] == "ne" && "ne"[..1] == "n" && "n"[..0] == "";
    assert Basename("n") == "n";
    assert Basename("ne") == "ne";
    assert Basename("net") == "net";
    assert Basename("net.") == "net.";
    assert Basename("net.p") == "net.p";
  }

  lemma NetStem()
    ensures BeforeFirstDot("net.py") == "net"
  {
    assert "net.py"[1..] == "et.py" && "et.py"[1..] == "t.py" && "t.py"[1..] == ".py";
    assert BeforeFirstDot(".py") == "";
    assert BeforeFirstDot("t.py") == "t";
    assert BeforeFirstDot("et.py") == "et";
  }
}
