/**
 * How the front end turns a stored file path into a URL. Two helpers exist:
 * music-frontend/src/lib/api.ts normalises the path and routes it through the server's
 * `/files/` endpoint; music-frontend/src/lib/realApi.ts only replaces backslashes and
 * prefixes the base URL. The base URL is a parameter (`VITE_API_BASE_URL`, else
 * `http://localhost:5000`).
 */
module FileUrls {
  import opened Wrappers
  import Js
  import Text

  const DefaultBase: string := "http://localhost:5000"
  const FilesPrefix: string := "files/"

  /** `import.meta.env.VITE_API_BASE_URL?.toString() || 'http://localhost:5000'`. */
  function ApiBaseUrl(env: Option<string>): (r: string)
    ensures Js.TruthyString(env) ==> r == env.value
    ensures !Js.TruthyString(env) ==> r == DefaultBase
  {
    if Js.TruthyString(env) then env.value else DefaultBase
  }

  predicate IsAbsolute(s: string) {
    Text.StartsWith(s, "http://") || Text.StartsWith(s, "https://")
  }

  lemma NotAbsolute(s: string)
    requires s != [] && s[0] != 'h'
    ensures !IsAbsolute(s)
  {
    if |s| >= 7 {
      assert s[..7][0] != "http://"[0];
    }
    if |s| >= 8 {
      assert s[..8][0] != "https://"[0];
    }
  }

  lemma NoBackslashAfterReplace(s: string)
    ensures '\\' !in Text.ReplaceBackslashes(s)
  {
    var r := Text.ReplaceBackslashes(s);
    assert forall i :: 0 <= i < |r| ==> r[i] != '\\';
  }

  /** Trimmed, with every backslash turned into a slash. */
  function Normalise(path: string): (r: string)
    ensures |r| <= |path|
  {
    Text.ReplaceBackslashes(Text.Trim(path))
  }

  lemma NormaliseShape(path: string)
    ensures var r := Normalise(path);
      && '\\' !in r
      && (r == [] || (!Text.IsJsSpace(r[0]) && !Text.IsJsSpace(r[|r| - 1])))
  {
    NoBackslashAfterReplace(Text.Trim(path));
  }

  /** A relative path with one leading slash dropped. */
  function DropSlash(raw: string): (r: string)
    ensures Text.StartsWith(raw, "/") ==> r == raw[1..]
    ensures !Text.StartsWith(raw, "/") ==> r == raw
  {
    if Text.StartsWith(raw, "/") then raw[1..] else raw
  }

  /** `files/` put in front unless present. */
  function UnderFiles(rest: string): (r: string)
    ensures Text.StartsWith(r, FilesPrefix)
    ensures Text.StartsWith(rest, FilesPrefix) ==> r == rest
    ensures !Text.StartsWith(rest, FilesPrefix) ==> r == FilesPrefix + rest
  {
    if Text.StartsWith(rest, FilesPrefix) then rest else FilesPrefix + rest
  }

  /** The `files/...` tail of a relative URL. */
  function RelativeTail(path: string): string
  {
    UnderFiles(DropSlash(Normalise(path)))
  }

  /** `getFileUrl` of api.ts. */
  function GetFileUrl(base: string, path: Option<string>): (r: Option<string>)
    ensures r.None? <==> !Js.TruthyString(path)
    ensures r.Some? && IsAbsolute(Normalise(path.value)) ==> r.value == Normalise(path.value)
    ensures r.Some? && !IsAbsolute(Normalise(path.value)) ==>
      r.value == base + "/" + RelativeTail(path.value)
  {
    if !Js.TruthyString(path) then None
    else
      var raw := Normalise(path.value);
      if IsAbsolute(raw) then Some(raw) else Some(base + "/" + UnderFiles(DropSlash(raw)))
  }

  lemma DropSlashClean(raw: string)
    requires '\\' !in raw
    ensures '\\' !in DropSlash(raw)
  {
    var rest := DropSlash(raw);
    forall i | 0 <= i < |rest|
      ensures rest[i] != '\\'
    {
      assert rest[i] in raw;
    }
  }

  lemma UnderFilesClean(rest: string)
    requires '\\' !in rest
    ensures '\\' !in UnderFiles(rest)
  {
    assert '\\' !in FilesPrefix;
  }

  /** The tail of a relative URL starts with `files/` and holds no backslash. */
  lemma RelativeTailShape(path: string)
    ensures Text.StartsWith(RelativeTail(path), FilesPrefix)
    ensures '\\' !in RelativeTail(path)
  {
    NormaliseShape(path);
    DropSlashClean(Normalise(path));
    UnderFilesClean(DropSlash(Normalise(path)));
  }

  /** A string with no white space at either end is its own trim. */
  lemma TrimUnchanged(s: string)
    requires s != [] && !Text.IsJsSpace(s[0]) && !Text.IsJsSpace(s[|s| - 1])
    ensures Text.Trim(s) == s
  {
    assert Text.TrimStart(s) == s;
    assert Text.TrimEnd(s) == s;
  }

  lemma ReplaceUnchanged(s: string)
    requires '\\' !in s
    ensures Text.ReplaceBackslashes(s) == s
  {
    var r := Text.ReplaceBackslashes(s);
    forall i | 0 <= i < |s|
      ensures r[i] == s[i]
    {
      assert s[i] in s;
    }
  }

  lemma NormaliseUnchanged(s: string)
    requires s != [] && !Text.IsJsSpace(s[0]) && !Text.IsJsSpace(s[|s| - 1]) && '\\' !in s
    ensures Normalise(s) == s
  {
    TrimUnchanged(s);
    ReplaceUnchanged(s);
  }

  /** The last character of the tail is the normalised path's last one, or the prefix's slash. */
  lemma TailEnd(path: string)
    ensures var tail := RelativeTail(path); !Text.IsJsSpace(tail[|tail| - 1])
  {
    var raw := Normalise(path);
    NormaliseShape(path);
    var rest := DropSlash(raw);
    var tail := RelativeTail(path);
    if rest == [] {
      assert tail == FilesPrefix;
    } else {
      assert rest[|rest| - 1] == raw[|raw| - 1];
      assert tail[|tail| - 1] == rest[|rest| - 1];
    }
  }

  /**
   * Normalising is idempotent: feeding the `files/...` tail of a relative result back in
   * gives the same URL.
   */
  lemma GetFileUrlIdempotent(base: string, path: string)
    requires path != [] && !IsAbsolute(Normalise(path))
    ensures GetFileUrl(base, Some(RelativeTail(path))) == GetFileUrl(base, Some(path))
  {
    var tail := RelativeTail(path);
    RelativeTailShape(path);
    TailEnd(path);
    assert tail[0] == 'f' by {
      assert tail[..|FilesPrefix|] == FilesPrefix;
    }
    NormaliseUnchanged(tail);
    NotAbsolute(tail);
    assert DropSlash(tail) == tail;
    assert UnderFiles(tail) == tail;
  }

  /**
   * For a clean relative path x (no surrounding white space, no backslash, no leading slash
   * or `files/`, not absolute) the forms `x`, `files/x` and `/x` name the same URL.
   */
  lemma SameUrlForms(base: string, x: string)
    requires x != [] && !Text.IsJsSpace(x[0]) && !Text.IsJsSpace(x[|x| - 1]) && '\\' !in x
    requires !IsAbsolute(x) && !Text.StartsWith(x, "/") && !Text.StartsWith(x, FilesPrefix)
    ensures GetFileUrl(base, Some(x)) == Some(base + "/" + (FilesPrefix + x))
    ensures GetFileUrl(base, Some(FilesPrefix + x)) == GetFileUrl(base, Some(x))
    ensures GetFileUrl(base, Some("/" + x)) == GetFileUrl(base, Some(x))
  {
    var url := base + "/" + (FilesPrefix + x);
    CleanTail(x);
    RelativeUrl(base, x, url);
    FilesFormTail(x);
    RelativeUrl(base, FilesPrefix + x, url);
    SlashFormTail(x);
    RelativeUrl(base, "/" + x, url);
  }

  lemma RelativeUrl(base: string, p: string, url: string)
    requires p != [] && !IsAbsolute(Normalise(p)) && url == base + "/" + RelativeTail(p)
    ensures GetFileUrl(base, Some(p)) == Some(url)
  {
  }

  lemma CleanTail(x: string)
    requires x != [] && !Text.IsJsSpace(x[0]) && !Text.IsJsSpace(x[|x| - 1]) && '\\' !in x
    requires !IsAbsolute(x) && !Text.StartsWith(x, "/") && !Text.StartsWith(x, FilesPrefix)
    ensures Normalise(x) == x && RelativeTail(x) == FilesPrefix + x
  {
    NormaliseUnchanged(x);
  }

  lemma FilesFormTail(x: string)
    requires x != [] && !Text.IsJsSpace(x[|x| - 1]) && '\\' !in x
    ensures !IsAbsolute(Normalise(FilesPrefix + x)) && RelativeTail(FilesPrefix + x) == FilesPrefix + x
  {
    PrefixedForm(FilesPrefix, x);
    assert (FilesPrefix + x)[..|FilesPrefix|] == FilesPrefix;
  }

  lemma SlashFormTail(x: string)
    requires x != [] && !Text.IsJsSpace(x[|x| - 1]) && '\\' !in x
    requires !Text.StartsWith(x, FilesPrefix)
    ensures !IsAbsolute(Normalise("/" + x)) && RelativeTail("/" + x) == FilesPrefix + x
  {
    PrefixedForm("/", x);
    assert ("/" + x)[1..] == x;
  }

  /** Putting a clean prefix not starting with `h` before a clean path keeps it clean and relative. */
  lemma PrefixedForm(p: string, x: string)
    requires p != [] && p[0] != 'h' && !Text.IsJsSpace(p[0]) && '\\' !in p
    requires x != [] && !Text.IsJsSpace(x[|x| - 1]) && '\\' !in x
    ensures Normalise(p + x) == p + x && !IsAbsolute(p + x)
  {
    var f := p + x;
    assert f[|f| - 1] == x[|x| - 1];
    NormaliseUnchanged(f);
    NotAbsolute(f);
  }

  /** Absolute URLs come back as they are, without the base. */
  lemma AbsoluteKept(base: string, url: string)
    requires Text.StartsWith(url, "https://") && '\\' !in url && !Text.IsJsSpace(url[|url| - 1])
    ensures GetFileUrl(base, Some(url)) == Some(url)
  {
    NormaliseUnchanged(url);
  }

  lemma {:induction false} AllSpaceTrimStart(s: string)
    requires forall i :: 0 <= i < |s| ==> Text.IsJsSpace(s[i])
    ensures Text.TrimStart(s) == []
    decreases |s|
  {
    if s != [] {
      AllSpaceTrimStart(s[1..]);
    }
  }

  /** A non-empty path of white space only is truthy and names the `files/` directory itself. */
  lemma WhitespaceOnlyPath(base: string, path: string)
    requires path != [] && forall i :: 0 <= i < |path| ==> Text.IsJsSpace(path[i])
    ensures GetFileUrl(base, Some(path)) == Some(base + "/" + FilesPrefix)
  {
    AllSpaceTrimStart(path);
    assert Normalise(path) == [];
    assert RelativeTail(path) == FilesPrefix;
  }

  /** `getFileUrl` of realApi.ts: the base, a slash, and the path with backslashes replaced. */
  function GetFileUrlPlain(base: string, path: Option<string>): (r: Option<string>)
    ensures r.None? <==> !Js.TruthyString(path)
    ensures r.Some? ==> |r.value| == |base| + 1 + |path.value|
    ensures r.Some? ==> r.value[..|base| + 1] == base + "/"
    ensures r.Some? ==> forall i :: 0 <= i < |path.value| ==>
      r.value[|base| + 1 + i] == (if path.value[i] == '\\' then '/' else path.value[i])
  {
    if !Js.TruthyString(path) then None else Some(base + "/" + Text.ReplaceBackslashes(path.value))
  }

  /**
   * The two helpers disagree on every clean relative path: the plain one does not route
   * through `/files/`.
   */
  lemma HelpersDifferRelative(base: string, x: string)
    requires x != [] && !Text.IsJsSpace(x[0]) && !Text.IsJsSpace(x[|x| - 1]) && '\\' !in x
    requires !IsAbsolute(x) && !Text.StartsWith(x, "/") && !Text.StartsWith(x, FilesPrefix)
    ensures GetFileUrl(base, Some(x)) == Some(base + "/" + (FilesPrefix + x))
    ensures GetFileUrlPlain(base, Some(x)) == Some(base + "/" + x)
  {
    CleanTail(x);
    ReplaceUnchanged(x);
  }

  /** ... and on every clean absolute URL, which the plain one prefixes with the base. */
  lemma HelpersDifferAbsolute(base: string, u: string)
    requires Text.StartsWith(u, "https://") && '\\' !in u && !Text.IsJsSpace(u[|u| - 1])
    ensures GetFileUrl(base, Some(u)) == Some(u)
    ensures GetFileUrlPlain(base, Some(u)) == Some(base + "/" + u)
  {
    AbsoluteKept(base, u);
    ReplaceUnchanged(u);
  }
}
