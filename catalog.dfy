/**
 * The plugin catalog: the plugin directory's file listing reduced to plugin
 * names. A file is a plugin when its name ends in ".py"; its plugin name is
 * the file name with that suffix removed. The listing itself is an input:
 * `None` stands for a directory that does not exist, `Some(files)` for the
 * names the directory listing returned, in that order.
 */
module Catalog {
  import opened Options

  /** The marker that stands for every plugin of the catalog in a grant or pack list. */
  const Wildcard: string := "*"

  /** A file the scan keeps: its name ends in ".py". */
  predicate IsPluginFile(file: string) {
    |file| >= 3 && file[|file| - 3..] == ".py"
  }

  /** The plugin name of a kept file: the file name without its ".py". */
  function PluginName(file: string): (name: string)
    requires IsPluginFile(file)
    ensures name + ".py" == file
  {
    file[..|file| - 3]
  }

  /** The plugin names of a listing, in listing order. */
  function PluginNames(files: seq<string>): seq<string>
  {
    if files == [] then []
    else
      var last := files[|files| - 1];
      PluginNames(files[..|files| - 1]) + (if IsPluginFile(last) then [PluginName(last)] else [])
  }

  /** Every plugin available on disk; nothing when the directory is absent. */
  function Available(dir: Option<seq<string>>): seq<string>
  {
    match dir
    case None => []
    case Some(files) => PluginNames(files)
  }

  /**
   * A name is listed exactly when some ".py" file of the listing carries it,
   * and no file contributes more than one name.
   */
  lemma {:induction false} PluginNamesMembers(files: seq<string>)
    ensures |PluginNames(files)| <= |files|
    ensures forall name :: name in PluginNames(files) <==>
      exists file :: file in files && IsPluginFile(file) && PluginName(file) == name
  {
    if files != [] {
      var init, last := files[..|files| - 1], files[|files| - 1];
      PluginNamesMembers(init);
      assert files == init + [last];
      forall name
        ensures name in PluginNames(files) <==>
          exists file :: file in files && IsPluginFile(file) && PluginName(file) == name
      {
        if name in PluginNames(files) && name !in PluginNames(init) {
          assert IsPluginFile(last) && PluginName(last) == name;
        }
      }
    }
  }

  /** Every plugin name, followed by ".py", is a file of the listing. */
  lemma AvailableAreFiles(dir: Option<seq<string>>, name: string)
    requires name in Available(dir)
    ensures dir.Some? && name + ".py" in dir.value
  {
    PluginNamesMembers(dir.value);
  }

  /** The directory scan: keep the ".py" files, strip the suffix, keep listing order. */
  method ScanPluginDir(dir: Option<seq<string>>) returns (names: seq<string>)
    ensures names == Available(dir)
    ensures dir.None? ==> names == []
  {
    names := [];
    if dir.None? {
      return;
    }
    var files := dir.value;
    var i := 0;
    while i < |files|
      invariant 0 <= i <= |files|
      invariant names == PluginNames(files[..i])
    {
      if IsPluginFile(files[i]) {
        names := names + [PluginName(files[i])];
      }
      assert files[..i + 1][..i] == files[..i];
      i := i + 1;
    }
    assert files[..|files|] == files;
  }
}
