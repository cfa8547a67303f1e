/** `getCurrentPage`: which page script the location's path name selects. */
module Pages {
  import opened Strings

  datatype Page = Index | Profile | Recommendations | Internships | Contact | About

  /** The word a page's file name is recognised by. */
  function Keyword(p: Page): string {
    match p
    case Index => "index"
    case Profile => "profile"
    case Recommendations => "recommendations"
    case Internships => "internships"
    case Contact => "contact"
    case About => "about"
  }

  /** The order in which the keywords are tried; `Index` is the default and comes last. */
  function Rank(p: Page): nat {
    match p
    case Profile => 0
    case Recommendations => 1
    case Internships => 2
    case Contact => 3
    case About => 4
    case Index => 5
  }

  /**
   * `path.substring(path.lastIndexOf('/') + 1)`: the longest suffix of the path
   * that holds no '/'.
   */
  function FileName(path: string): (name: string)
    ensures |name| <= |path| && name == path[|path| - |name|..]
    ensures forall i :: 0 <= i < |name| ==> name[i] != '/'
    ensures |name| < |path| ==> path[|path| - |name| - 1] == '/'
  {
    path[LastIndexOf(path, '/') + 1..]
  }

  /** The ordered tests `getCurrentPage` runs on the file name. */
  function Classify(name: string): (p: Page)
    ensures p != Index ==> Contains(name, Keyword(p))
    ensures p != Index ==> forall q :: Rank(q) < Rank(p) ==> !Contains(name, Keyword(q))
    ensures p == Index <==>
      name == "" || name == "index.html" || forall q :: q != Index ==> !Contains(name, Keyword(q))
  {
    if name == "" || name == "index.html" then Index
    else if Contains(name, "profile") then Profile
    else if Contains(name, "recommendations") then Recommendations
    else if Contains(name, "internships") then Internships
    else if Contains(name, "contact") then Contact
    else if Contains(name, "about") then About
    else Index
  }

  /** `getCurrentPage`: the page selected by the file name at the end of the path. */
  function CurrentPage(path: string): (p: Page)
    ensures p != Index ==> Contains(path, Keyword(p))
    ensures (forall i :: 0 <= i < |path| ==> path[i] != '/') ==> p == Classify(path)
  {
    var name := FileName(path);
    var p := Classify(name);
    if p == Index then p
    else
      ContainsInSuffix(path, |path| - |name|, Keyword(p));
      p
  }

  /** Only the file name matters: the directories in front of it never change the page. */
  lemma DirectoryIgnored(dir: string, name: string)
    requires forall i :: 0 <= i < |name| ==> name[i] != '/'
    ensures CurrentPage(dir + "/" + name) == Classify(name)
  {
    var path := dir + "/" + name;
    forall k | |dir| < k < |path| ensures path[k] != '/' {
      assert path[k] == name[k - |dir| - 1];
    }
    assert path[|dir|] == '/';
    assert LastIndexOf(path, '/') == |dir|;
    assert FileName(path) == name;
  }

  /** The profile page's file name selects the profile script. */
  lemma ProfileFileName(name: string)
    requires name == "profile.html"
    ensures Classify(name) == Profile
  {
    assert OccursAt(name, "profile", 0);
  }

  /** The about page's file name holds none of the keywords tried before "about". */
  lemma AboutFileName(name: string)
    requires name == "about.html"
    ensures Classify(name) == About
  {
    MissingCharacter(name, "profile", 0);
    MissingCharacter(name, "recommendations", 0);
    MissingCharacter(name, "internships", 0);
    MissingCharacter(name, "contact", 0);
    assert OccursAt(name, "about", 0);
  }

  /** A file name holding no keyword falls back to the home page. */
  lemma UnknownFileName(name: string)
    requires name == "faq.html"
    ensures Classify(name) == Index
  {
    MissingCharacter(name, "profile", 0);
    MissingCharacter(name, "recommendations", 0);
    MissingCharacter(name, "internships", 0);
    MissingCharacter(name, "contact", 0);
    MissingCharacter(name, "about", 1);
  }
}
