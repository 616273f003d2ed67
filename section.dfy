/** `Section` (src/section.cjs): a run of segments with a title, built from
    loosely typed options. Only the constructor writes its fields, so it is
    a value here. */
module Sections {
  import opened Wrappers
  import opened Js

  /** A segment: its properties by name (`scid`, `en`, `pli`, ...). */
  type Segment = map<string, string>

  datatype SegmentsArg = NotAnArray | Segments(items: seq<Segment>)

  /** The options the constructor reads; `None` stands for an absent value
      (and, for the text options, also for `null`). */
  datatype SectionOptions = SectionOptions(
    segments: SegmentsArg,
    prefix: Option<string>,
    values: Option<seq<string>>,
    prop: Option<string>,
    title: Option<string>)

  datatype Section = Section(
    segments: seq<Segment>,
    kind: string,
    prefix: string,
    values: seq<string>,
    prop: string,
    title: string,
    expandable: bool)

  const DefaultProp: string := "en"
  const Untitled: string := "(untitled)"

  /** `Section.titleOfText(text = "(untitled)")`: the text itself, even when
      empty; only a missing text takes the default. */
  function TitleOfText(text: Option<string>): (r: string)
    ensures text.Some? ==> r == text.value
    ensures text.None? ==> r == Untitled
  {
    text.GetOr(Untitled)
  }

  /** `seg0 && seg0[prop]`: the first segment's value for `prop`, if both
      exist. */
  function FirstText(segments: seq<Segment>, prop: string): (r: Option<string>)
    ensures r.Some? <==> |segments| > 0 && prop in segments[0]
    ensures r.Some? ==> r.value == segments[0][prop]
  {
    if |segments| > 0 && prop in segments[0] then Some(segments[0][prop]) else None
  }

  /** `new Section(opts)`. */
  function NewSection(opts: SectionOptions): (r: Result<Section, string>)
    ensures r.Failure? <==> opts.segments.NotAnArray?
    ensures r.Failure? ==> r.error == "expected Array of segments"
    ensures r.Success? ==>
      && r.value.segments == opts.segments.items
      && r.value.kind == "Section"
      && r.value.prefix == Or(opts.prefix, "")
      && r.value.values == opts.values.GetOr([])
      && r.value.prop == Or(opts.prop, DefaultProp) && r.value.prop != ""
      && !r.value.expandable
    ensures r.Success? && Truthy(opts.title) ==> r.value.title == opts.title.value
    ensures r.Success? && !Truthy(opts.title) ==>
      var segs := opts.segments.items;
      var prop := Or(opts.prop, DefaultProp);
      r.value.title == (if |segs| > 0 && prop in segs[0] then segs[0][prop] else Untitled)
  {
    match opts.segments
    case NotAnArray => Failure("expected Array of segments")
    case Segments(items) =>
      var prop := Or(opts.prop, DefaultProp);
      var title := if Truthy(opts.title) then opts.title.value else TitleOfText(FirstText(items, prop));
      Success(Section(items, "Section", Or(opts.prefix, ""), opts.values.GetOr([]), prop, title, false))
  }

  /** What `new Section(JSON.parse(JSON.stringify(section)))` reads back:
      every field, as a plain value. */
  function ToOptions(s: Section): SectionOptions {
    SectionOptions(Segments(s.segments), Some(s.prefix), Some(s.values), Some(s.prop), Some(s.title))
  }

  /** A section rebuilt from its own serialised fields is the same section,
      including when its title came out empty. */
  lemma RoundTrip(opts: SectionOptions)
    requires opts.segments.Segments?
    ensures NewSection(opts).Success?
    ensures NewSection(ToOptions(NewSection(opts).value)) == NewSection(opts)
  {
    var s := NewSection(opts).value;
    var t := NewSection(ToOptions(s)).value;
    if s.title == "" {
      assert !Truthy(opts.title);
      assert t.title == s.title;
    }
  }

  /** A section without an explicit title is titled by its first segment. */
  lemma TitledByFirstSegment(segs: seq<Segment>)
    requires |segs| > 0 && "en" in segs[0]
    ensures var r := NewSection(SectionOptions(Segments(segs), None, None, None, None));
      r.Success? && r.value.title == segs[0]["en"] && r.value.prop == "en" && r.value.prefix == ""
  {
  }

  /** `expand(segment)`: no longer supported, always throws. */
  function Expand(s: Section, segment: Segment): (r: Outcome<string>)
    ensures r == Fail("expand() is no longer supported")
  {
    Fail("expand() is no longer supported")
  }

  /** `expandAll()`: no longer supported, always throws. */
  function ExpandAll(s: Section): (r: Outcome<string>)
    ensures r == Fail("expandAll() is no longer supported")
  {
    Fail("expandAll() is no longer supported")
  }
}
