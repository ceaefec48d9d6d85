/**
 * The name of the file a device's configuration is written to:
 * `<hostname>--<serial>.txt`, with every `/` in either part replaced by `-`.
 */
module FileNames {

  import opened Inventory

  /** `s.replace('/', '-')`. */
  function ReplaceSlashes(s: string): (r: string)
    ensures |r| == |s|
    ensures forall i :: 0 <= i < |s| ==> r[i] == (if s[i] == '/' then '-' else s[i])
    ensures '/' !in r
  {
    if s == [] then []
    else [if s[0] == '/' then '-' else s[0]] + ReplaceSlashes(s[1..])
  }

  /** A string is left as it is exactly when it holds no `/`. */
  lemma ReplaceSlashesFixedPoint(s: string)
    ensures ReplaceSlashes(s) == s <==> '/' !in s
  {
    if '/' !in s {
      var r := ReplaceSlashes(s);
      assert forall i :: 0 <= i < |s| ==> s[i] != '/';
      assert forall i :: 0 <= i < |s| ==> r[i] == s[i];
    }
  }

  /** Replacing twice is replacing once. */
  lemma ReplaceSlashesIdempotent(s: string)
    ensures ReplaceSlashes(ReplaceSlashes(s)) == ReplaceSlashes(s)
  {
    ReplaceSlashesFixedPoint(ReplaceSlashes(s));
  }

  /** The file name of a device (without the destination folder). */
  function ConfigFileName(d: Device): (name: string)
    ensures '/' !in name
    ensures |name| == |d.hostname| + |d.sn| + 6
  {
    ReplaceSlashes(d.hostname) + "--" + ReplaceSlashes(d.sn) + ".txt"
  }

  /** The name splits into the replaced hostname, `--`, the replaced serial and `.txt`. */
  lemma ConfigFileNameParts(d: Device)
    ensures var name := ConfigFileName(d);
      var h := |d.hostname|;
      && name[..h] == ReplaceSlashes(d.hostname)
      && name[h..h + 2] == "--"
      && name[h + 2..h + 2 + |d.sn|] == ReplaceSlashes(d.sn)
      && name[|name| - 4..] == ".txt"
  {
    var h, s := ReplaceSlashes(d.hostname), ReplaceSlashes(d.sn);
    var name := h + "--" + s + ".txt";
    assert name[..|h|] == h;
    assert name[|h|..|h| + 2] == "--";
    assert name[|h| + 2..|h| + 2 + |s|] == s;
    assert name[|name| - 4..] == ".txt";
  }

  /** When neither part has a `/`, the name is the plain concatenation. */
  lemma ConfigFileNameOfPlainDevice(d: Device)
    requires '/' !in d.hostname && '/' !in d.sn
    ensures ConfigFileName(d) == d.hostname + "--" + d.sn + ".txt"
  {
    ReplaceSlashesFixedPoint(d.hostname);
    ReplaceSlashesFixedPoint(d.sn);
  }

  /** Two distinct devices can share a file name: a `/` and a `-` in the same place collide. */
  lemma SlashAndDashCollide()
    ensures Device("AB12", "core/sw1") != Device("AB12", "core-sw1")
    ensures ConfigFileName(Device("AB12", "core/sw1")) == ConfigFileName(Device("AB12", "core-sw1"))
  {
    var a := ReplaceSlashes("core/sw1");
    ReplaceSlashesFixedPoint("core-sw1");
    assert a == "core-sw1";
  }

  /** The `--` separator is not escaped either: a `--` inside a hostname or serial collides. */
  lemma SeparatorCollides()
    ensures Device("c", "a--b") != Device("b--c", "a")
    ensures ConfigFileName(Device("c", "a--b")) == ConfigFileName(Device("b--c", "a"))
  {
    ReplaceSlashesFixedPoint("a--b");
    ReplaceSlashesFixedPoint("c");
    ReplaceSlashesFixedPoint("b--c");
    ReplaceSlashesFixedPoint("a");
  }
}
