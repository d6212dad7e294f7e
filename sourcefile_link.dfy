/** The source-link rewrite pass of the TypeDoc plugin
    typedoc-plugin-sourcefile-link.

    When the host has resolved its documentation model, the plugin visits
    every reflection and every source reference on it, and for each
    reference with a file name overwrites its `url` with the URL prefix,
    the file name and, when a line prefix is configured, the line prefix
    followed by the line number. An empty URL prefix switches the pass
    off. */
module SourcefileLink {
  import opened Decimal

  /** Default of the option `sourcefile-url-prefix`: the pass is off. */
  const DefaultUrlPrefix: string := ""

  /** Default of the option `sourcefile-line-prefix`. */
  const DefaultLinePrefix: string := "#L-"

  datatype Option<T> = None | Some(value: T)

  /** One place in the sources where a reflection is declared. An absent
      file name is the empty string. */
  class SourceReference {
    var fileName: string
    var line: nat
    var url: string

    constructor (fileName: string, line: nat, url: string)
      ensures this.fileName == fileName && this.line == line && this.url == url
    {
      this.fileName := fileName;
      this.line := line;
      this.url := url;
    }
  }

  /** A documented symbol; `sources` is `None` when the host attached no
      source references to it. */
  class Reflection {
    var sources: Option<seq<SourceReference>>

    constructor (sources: Option<seq<SourceReference>>)
      ensures this.sources == sources
    {
      this.sources := sources;
    }
  }

  /** The link the pass writes for a reference with a file name. */
  function ComputeUrl(urlPrefix: string, fileName: string, line: nat, linePrefix: string): (url: string)
    ensures |urlPrefix + fileName| <= |url| && url[..|urlPrefix + fileName|] == urlPrefix + fileName
    ensures url == urlPrefix + fileName <==> linePrefix == ""
  {
    urlPrefix + fileName + (if linePrefix != "" then linePrefix + NatToDecimal(line) else "")
  }

  /** With a line prefix, the URL continues after the file name with the
      line prefix and then nothing but the digits of the line number, from
      which the line number can be read back. */
  lemma LineAnchor(urlPrefix: string, fileName: string, line: nat, linePrefix: string)
    requires linePrefix != ""
    ensures var url := ComputeUrl(urlPrefix, fileName, line, linePrefix);
            var k := |urlPrefix| + |fileName| + |linePrefix|;
            k < |url| &&
            url[|urlPrefix| + |fileName|..k] == linePrefix &&
            url[k..] == NatToDecimal(line) &&
            DecimalValue(url[k..]) == line
  {
    var url := ComputeUrl(urlPrefix, fileName, line, linePrefix);
    var k := |urlPrefix| + |fileName| + |linePrefix|;
    assert url == (urlPrefix + fileName + linePrefix) + NatToDecimal(line);
    assert url[k..] == NatToDecimal(line);
    DecimalRoundTrip(line);
  }

  /** With a line prefix, two URLs for the same file are equal only when
      the line numbers are; without one, the line number plays no part. */
  lemma LineDeterminesUrl(urlPrefix: string, fileName: string, line1: nat, line2: nat, linePrefix: string)
    ensures linePrefix != "" ==>
              (ComputeUrl(urlPrefix, fileName, line1, linePrefix) == ComputeUrl(urlPrefix, fileName, line2, linePrefix)
               <==> line1 == line2)
    ensures linePrefix == "" ==>
              ComputeUrl(urlPrefix, fileName, line1, linePrefix) == ComputeUrl(urlPrefix, fileName, line2, linePrefix)
  {
    if linePrefix != "" {
      LineAnchor(urlPrefix, fileName, line1, linePrefix);
      LineAnchor(urlPrefix, fileName, line2, linePrefix);
    }
  }

  /** Two worked examples: a file link with a line anchor, and one without. */
  lemma ExampleUrls()
    ensures ComputeUrl("https://git.example.com/repo/blob/main/", "src/foo.ts", 42, DefaultLinePrefix)
            == "https://git.example.com/repo/blob/main/src/foo.ts#L-42"
    ensures ComputeUrl("https://example.org/", "a/b.ts", 3, "") == "https://example.org/a/b.ts"
  {
    assert NatToDecimal(42) == NatToDecimal(4) + [DigitChar(2)];
  }

  /** The `url` a source reference holds after the pass, given the one it
      held before. */
  function UrlAfterPass(url: string, fileName: string, line: nat, urlPrefix: string, linePrefix: string): string
  {
    if urlPrefix != "" && fileName != "" then ComputeUrl(urlPrefix, fileName, line, linePrefix) else url
  }

  /** An empty URL prefix, the default among them, leaves every url as it was. */
  lemma DisabledPassKeepsUrl(url: string, fileName: string, line: nat, linePrefix: string)
    ensures UrlAfterPass(url, fileName, line, "", linePrefix) == url
    ensures UrlAfterPass(url, fileName, line, DefaultUrlPrefix, DefaultLinePrefix) == url
  {
  }

  /** A reference without a file name keeps its url whatever the prefixes. */
  lemma AbsentFileNameKeepsUrl(url: string, line: nat, urlPrefix: string, linePrefix: string)
    ensures UrlAfterPass(url, "", line, urlPrefix, linePrefix) == url
  {
  }

  /** With the pass on and a file name present, the new url is the
      prefix, the file name and, only when a line prefix is set, the line
      anchor; it does not depend on the url held before. */
  lemma RewrittenUrl(url: string, fileName: string, line: nat, urlPrefix: string, linePrefix: string)
    requires urlPrefix != "" && fileName != ""
    ensures linePrefix != "" ==>
              UrlAfterPass(url, fileName, line, urlPrefix, linePrefix)
              == urlPrefix + fileName + linePrefix + NatToDecimal(line)
    ensures linePrefix == "" ==> UrlAfterPass(url, fileName, line, urlPrefix, linePrefix) == urlPrefix + fileName
    ensures forall other: string ::
              UrlAfterPass(other, fileName, line, urlPrefix, linePrefix)
              == UrlAfterPass(url, fileName, line, urlPrefix, linePrefix)
  {
  }

  /** Running the pass a second time with the same options changes
      nothing more: the new url is built from the file name and line,
      which the pass never writes. */
  lemma PassIdempotent(url: string, fileName: string, line: nat, urlPrefix: string, linePrefix: string)
    ensures var once := UrlAfterPass(url, fileName, line, urlPrefix, linePrefix);
            UrlAfterPass(once, fileName, line, urlPrefix, linePrefix) == once
  {
  }

  /** The source references attached to one reflection. */
  ghost function RecordsOf(reflection: Reflection?): (records: set<SourceReference>)
    reads reflection
  {
    if reflection == null || reflection.sources.None? then {}
    else set s | s in reflection.sources.value
  }

  /** The source references attached to any of the given reflections. */
  ghost function AllRecords(reflections: seq<Reflection?>): set<SourceReference>
    reads reflections
  {
    set i, s | 0 <= i < |reflections| && s in RecordsOf(reflections[i]) :: s
  }

  /** Each reflection's references are among those the pass reaches. */
  lemma RecordsOfInAll(reflections: seq<Reflection?>, i: nat)
    requires i < |reflections|
    ensures RecordsOf(reflections[i]) <= AllRecords(reflections)
  {
  }

  /** Visiting one more reflection adds exactly its references. */
  lemma AllRecordsSnoc(reflections: seq<Reflection?>, reflection: Reflection?)
    ensures AllRecords(reflections + [reflection]) == AllRecords(reflections) + RecordsOf(reflection)
  {
    var both := reflections + [reflection];
    forall s | s in AllRecords(both) ensures s in AllRecords(reflections) + RecordsOf(reflection) {
      var i :| 0 <= i < |both| && s in RecordsOf(both[i]);
      if i < |reflections| {
        assert both[i] == reflections[i];
      }
    }
    forall s | s in AllRecords(reflections) ensures s in AllRecords(both) {
      var i :| 0 <= i < |reflections| && s in RecordsOf(reflections[i]);
      assert both[i] == reflections[i];
    }
    assert both[|reflections|] == reflection;
  }

  /** Every reference the pass can reach was allocated when it started. */
  twostate lemma ReachableWereAllocated(reflections: seq<Reflection?>)
    ensures forall s :: s in old(AllRecords(reflections)) ==> old(allocated(s))
  {
  }

  /** One step of the pass: `reflection?.sources?.forEach(...)`, which
      rewrites the url of every source reference of `reflection` that has a
      file name. It runs only once the URL prefix is known to be set. */
  method RewriteReflectionSources(reflection: Reflection?, urlPrefix: string, linePrefix: string)
    requires urlPrefix != ""
    modifies RecordsOf(reflection)`url
    ensures forall s :: s in old(RecordsOf(reflection)) ==>
              s.url == UrlAfterPass(old(s.url), s.fileName, s.line, urlPrefix, linePrefix)
  {
    if reflection != null && reflection.sources.Some? {
      var sources := reflection.sources.value;
      var j := 0;
      while j < |sources|
        invariant 0 <= j <= |sources|
        invariant forall s :: s in sources[..j] ==>
                    s.url == UrlAfterPass(old(s.url), s.fileName, s.line, urlPrefix, linePrefix)
        invariant forall s :: s in sources && s !in sources[..j] ==> s.url == old(s.url)
      {
        var source := sources[j];
        if source.fileName != "" {
          source.url := ComputeUrl(urlPrefix, source.fileName, source.line, linePrefix);
        }
        assert sources[..j + 1] == sources[..j] + [source];
        j := j + 1;
      }
      assert sources[..j] == sources;
    }
  }

  /** The pass run on `EVENT_RESOLVE_END` over the host's reflections:
      every source reference of every reflection gets the url
      `UrlAfterPass` gives, and nothing else changes. */
  method RewriteSourceLinks(reflections: seq<Reflection?>, urlPrefix: string, linePrefix: string)
    modifies AllRecords(reflections)`url
    ensures forall s :: s in old(AllRecords(reflections)) ==>
              s.url == UrlAfterPass(old(s.url), s.fileName, s.line, urlPrefix, linePrefix)
    ensures urlPrefix == "" ==> forall s :: s in old(AllRecords(reflections)) ==> s.url == old(s.url)
    ensures forall s :: s in old(AllRecords(reflections)) ==>
              s.fileName == old(s.fileName) && s.line == old(s.line)
    ensures forall i :: 0 <= i < |reflections| && reflections[i] != null ==>
              reflections[i].sources == old(reflections[i].sources)
  {
    if urlPrefix != "" {
      ghost var done: set<SourceReference> := {};
      var i := 0;
      while i < |reflections|
        invariant 0 <= i <= |reflections|
        invariant done == AllRecords(reflections[..i])
        invariant forall s :: s in old(AllRecords(reflections)) ==>
                    s.url == if s in done
                             then UrlAfterPass(old(s.url), s.fileName, s.line, urlPrefix, linePrefix)
                             else old(s.url)
      {
        var reflection := reflections[i];
        assert reflections[..i + 1] == reflections[..i] + [reflection];
        AllRecordsSnoc(reflections[..i], reflection);
        assert RecordsOf(reflection) <= AllRecords(reflections);
        RewriteReflectionSources(reflection, urlPrefix, linePrefix);
        ReachableWereAllocated(reflections);
        forall s | s in old(AllRecords(reflections)) && s in RecordsOf(reflection)
          ensures s.url == UrlAfterPass(old(s.url), s.fileName, s.line, urlPrefix, linePrefix)
        {
          PassIdempotent(old(s.url), s.fileName, s.line, urlPrefix, linePrefix);
        }
        done := done + RecordsOf(reflection);
        i := i + 1;
      }
      assert reflections[..i] == reflections;
    }
  }

  /** Running the pass twice with the same options leaves every source
      reference as one run does. */
  method RewriteTwice(reflections: seq<Reflection?>, urlPrefix: string, linePrefix: string)
    modifies AllRecords(reflections)`url
    ensures forall s :: s in old(AllRecords(reflections)) ==>
              s.url == UrlAfterPass(old(s.url), s.fileName, s.line, urlPrefix, linePrefix)
  {
    RewriteSourceLinks(reflections, urlPrefix, linePrefix);
    RewriteSourceLinks(reflections, urlPrefix, linePrefix);
    forall s | s in old(AllRecords(reflections))
      ensures s.url == UrlAfterPass(old(s.url), s.fileName, s.line, urlPrefix, linePrefix)
    {
      PassIdempotent(old(s.url), s.fileName, s.line, urlPrefix, linePrefix);
    }
  }
}
