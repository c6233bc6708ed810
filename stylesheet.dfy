/** The theme stylesheet resolver, with one level of theme inheritance. */
module Stylesheet {
  import opened Wrappers
  import opened Strings

  /** What the resolver can see of the file system: the paths `fs.existsSync` reports, and for each
      settings.json that `require` can load, its `inherits` field (`None` when the field is absent). */
  datatype Files = Files(existing: set<string>, settings: map<string, Option<string>>)

  /** `[base without one trailing slash, "templates", theme, file].join("/")`. */
  function TemplatePath(base: string, theme: string, file: string): string {
    Join([StripTrailingSlash(base), "templates", theme, file], "/")
  }

  /** The theme slot after `template[2] = settings.inherits`; `undefined` joins as an empty segment. */
  function InheritedTheme(inherits: Option<string>): string {
    match inherits
    case Some(t) => t
    case None => ""
  }

  lemma TemplatePathLayout(base: string, theme: string, file: string)
    ensures TemplatePath(base, theme, file) == StripTrailingSlash(base) + "/templates/" + theme + "/" + file
  {
    var parts := [StripTrailingSlash(base), "templates", theme, file];
    assert Join(parts[1..][1..], "/") == theme + "/" + file by {
      assert parts[1..][1..][1..] == [file];
    }
    assert Join(parts[1..], "/") == "templates" + "/" + (theme + "/" + file);
    assert "/" + "templates" + "/" == "/templates/";
  }

  /** A base path written with or without its trailing slash gives the same stylesheet path. */
  lemma TrailingSlashIgnored(base: string, theme: string, file: string)
    requires !(|base| > 0 && base[|base| - 1] == '/')
    ensures TemplatePath(base + "/", theme, file) == TemplatePath(base, theme, file)
  {
    assert (base + "/")[..|base|] == base;
  }

  /** `xsl(context)`: the theme's own stylesheet when it exists; otherwise the same file under the
      theme named by the theme's settings.json, returned whether or not that file exists (one level,
      no further fallback). Loading a settings.json that is not there throws. */
  method Xsl(base: string, theme: string, stylesheet: string, files: Files) returns (r: Result<string>)
    ensures TemplatePath(base, theme, stylesheet) in files.existing ==>
      r == Success(TemplatePath(base, theme, stylesheet))
    ensures (TemplatePath(base, theme, stylesheet) !in files.existing &&
             TemplatePath(base, theme, "settings.json") !in files.settings) ==>
      r == Failure(ModuleNotFound(TemplatePath(base, theme, "settings.json")))
    ensures (TemplatePath(base, theme, stylesheet) !in files.existing &&
             TemplatePath(base, theme, "settings.json") in files.settings) ==>
      r == Success(TemplatePath(base, InheritedTheme(files.settings[TemplatePath(base, theme, "settings.json")]), stylesheet))
  {
    var template: seq<string> := [];
    template := template + [StripTrailingSlash(base)];
    template := template + ["templates"];
    template := template + [theme];
    template := template + [stylesheet];
    assert template == [StripTrailingSlash(base), "templates", theme, stylesheet];
    var xsl := Join(template, "/");
    if xsl in files.existing {
      return Success(xsl);
    }
    template := template[3 := "settings.json"];
    assert template == [StripTrailingSlash(base), "templates", theme, "settings.json"];
    var settingsPath := Join(template, "/");
    if settingsPath !in files.settings {
      return Failure(ModuleNotFound(settingsPath));
    }
    template := template[2 := InheritedTheme(files.settings[settingsPath])];
    template := template[3 := stylesheet];
    assert template == [StripTrailingSlash(base), "templates", InheritedTheme(files.settings[settingsPath]), stylesheet];
    return Success(Join(template, "/"));
  }
}
