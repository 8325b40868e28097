/**
 * What main.go does when the destination it resolved already exists:
 * checkExist's overwrite / skip / rename policy and generateNewFileName.
 * Existence is a set of the paths present, looked up with the path exactly
 * as checkExist receives it; the clock reading is a parameter.
 */
module Conflict {
  import opened Wrappers
  import opened Text
  import opened Calendar
  import opened Paths
  import opened Settings

  /**
   * generateNewFileName at clock reading `now`: the name with its extension
   * removed, then "_new_", the 14-character stamp, then the extension again.
   */
  function GenerateNewFileName(f: string, now: DateTime): (r: string)
    requires ValidDateTime(now)
    ensures |r| == |f| + 5 + |Stamp(now)|
  {
    var ext := Ext(f);
    TrimSuffix(f, ext) + "_new_" + Stamp(now) + ext
  }

  /** The name TrimSuffix leaves is f up to where its extension starts. */
  lemma StemIsPrefix(f: string)
    ensures TrimSuffix(f, Ext(f)) == f[..ExtStart(f)]
  {
    assert f[|f| - |Ext(f)|..] == Ext(f);
  }

  /** The new name is the stem, the tag "_new_" + stamp, and the extension. */
  lemma NewNameParts(f: string, now: DateTime)
    requires ValidDateTime(now)
    ensures GenerateNewFileName(f, now) == f[..ExtStart(f)] + ("_new_" + Stamp(now)) + Ext(f)
    ensures f == f[..ExtStart(f)] + Ext(f)
  {
    StemIsPrefix(f);
    var stem := f[..ExtStart(f)];
    assert stem + "_new_" + Stamp(now) == stem + ("_new_" + Stamp(now));
  }

  /** The tag holds no '.' and no '/'. */
  lemma TagLacksDotAndSlash(now: DateTime)
    requires ValidDateTime(now)
    ensures Lacks("_new_" + Stamp(now), '.') && Lacks("_new_" + Stamp(now), '/')
  {
    StampHasNoDotOrSlash(now);
    LacksConcat("_new_", Stamp(now), '.');
    LacksConcat("_new_", Stamp(now), '/');
  }

  /** A tag with no '.' or '/' appended to a name without extension leaves it without one, in the same directory. */
  lemma AppendWithoutExtension(stem: string, tag: string)
    requires Lacks(tag, '.') && Lacks(tag, '/')
    requires ExtStart(stem) == |stem|
    ensures ExtStart(stem + tag) == |stem + tag| && DirPrefix(stem + tag) == DirPrefix(stem)
  {
    ExtStaysEmpty(stem, tag);
    DirPrefixAppend(stem, tag);
  }

  /** A tag with no '.' or '/' inserted before a non-empty extension keeps the extension and the directory. */
  lemma InsertBeforeNonEmptyExtension(stem: string, tag: string, ext: string)
    requires Lacks(tag, '.') && Lacks(tag, '/')
    requires ext != [] && ext[0] == '.' && Lacks(ext[1..], '.') && Lacks(ext, '/')
    ensures Ext(stem + tag + ext) == ext && DirPrefix(stem + tag + ext) == DirPrefix(stem + ext)
  {
    ExtOfSuffix(stem + tag, ext);
    assert stem + tag + ext == stem + (tag + ext);
    LacksConcat(tag, ext, '/');
    DirPrefixAppend(stem, tag + ext);
    DirPrefixAppend(stem, ext);
  }

  /** Inserting a tag with no '.' or '/' before the extension of f keeps both the extension and the directory. */
  lemma InsertBeforeExtension(f: string, r: string, stem: string, tag: string, ext: string)
    requires Lacks(tag, '.') && Lacks(tag, '/') && tag != []
    requires f == stem + ext && r == stem + tag + ext
    requires ExtStart(f) == |stem| && Ext(f) == ext
    ensures Ext(r) == ext && DirPrefix(r) == DirPrefix(f) && r[..|stem|] == stem && r != f
  {
    if ext == "" {
      assert f == stem && r == stem + tag;
      AppendWithoutExtension(stem, tag);
    } else {
      InsertBeforeNonEmptyExtension(stem, tag, ext);
    }
    assert r[..|stem|] == stem;
    assert |r| != |f|;
  }

  /**
   * The new name keeps the extension and the directory of f, begins with f's
   * stem and differs from f.
   */
  lemma NewNameKeepsExtensionAndDirectory(f: string, now: DateTime)
    requires ValidDateTime(now)
    ensures var r := GenerateNewFileName(f, now);
      && Ext(r) == Ext(f)
      && DirPrefix(r) == DirPrefix(f)
      && r[..ExtStart(f)] == f[..ExtStart(f)]
      && r != f
  {
    NewNameParts(f, now);
    TagLacksDotAndSlash(now);
    InsertBeforeExtension(f, GenerateNewFileName(f, now), f[..ExtStart(f)], "_new_" + Stamp(now), Ext(f));
  }

  /** Why checkExist refused a destination. */
  datatype ConflictError = SkipFile(dest: string)

  /**
   * checkExist: a destination that does not exist, or exists with overwrite
   * on, is kept; an existing one is skipped unless no-skip is on, in which
   * case it is renamed with the clock reading.
   */
  function CheckExist(dest: string, cfg: Config, existing: set<string>, now: DateTime)
    : (r: Result<string, ConflictError>)
    requires ValidDateTime(now)
    ensures r.Failure? <==> dest in existing && !cfg.overWrite && !cfg.noSkip
    ensures r.Failure? ==> r.error == SkipFile(dest)
    ensures r.Success? && r.value == dest <==> dest !in existing || cfg.overWrite
    ensures r.Success? && r.value != dest ==> dest in existing && r.value == GenerateNewFileName(dest, now)
  {
    NewNameKeepsExtensionAndDirectory(dest, now);
    if dest in existing then
      if cfg.overWrite then Success(dest)
      else if !cfg.noSkip then Failure(SkipFile(dest))
      else Success(GenerateNewFileName(dest, now))
    else Success(dest)
  }

  /**
   * Whatever path checkExist settles on lies in the same directory as the
   * candidate and has the same extension: renaming never moves a file
   * elsewhere or changes its type.
   */
  lemma CheckExistStaysPut(dest: string, cfg: Config, existing: set<string>, now: DateTime)
    requires ValidDateTime(now)
    requires CheckExist(dest, cfg, existing, now).Success?
    ensures var p := CheckExist(dest, cfg, existing, now).value;
      DirPrefix(p) == DirPrefix(dest) && Ext(p) == Ext(dest)
  {
    NewNameKeepsExtensionAndDirectory(dest, now);
  }
}
