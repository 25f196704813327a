/** FileUtils: the file name of a download path. */
module FileUtils {
  import opened Base

  /**
   * getFileName: the part of the path after its last '/', i.e. the longest
   * suffix without a '/'. A path without '/' is its own file name, and a
   * path ending in '/' has the empty file name.
   */
  function GetFileName(filePath: string): (name: string)
    ensures |name| <= |filePath| && filePath[|filePath| - |name|..] == name
    ensures '/' !in name
    ensures |name| < |filePath| ==> filePath[|filePath| - |name| - 1] == '/'
  {
    filePath[LastIndexOf(filePath, '/') + 1..]
  }

  lemma NoSlashIsWholePath(filePath: string)
    requires '/' !in filePath
    ensures GetFileName(filePath) == filePath
  {
  }

  lemma TrailingSlashIsEmpty(filePath: string)
    requires |filePath| > 0 && filePath[|filePath| - 1] == '/'
    ensures GetFileName(filePath) == ""
  {
  }

  /** The file name glued back onto its directory part gives the path again. */
  lemma DirectoryAndName(filePath: string)
    ensures var name := GetFileName(filePath);
            filePath == filePath[..|filePath| - |name|] + name
  {
  }
}
