/** Scrubbing inline images, stated position by position: what is replaced, by what, and that all else stays. */
module RolloutScrub {
  import opened Prelude
  import opened Text
  import opened Json
  import opened DataUri
  import opened Rollout
  import opened RolloutRecords
  import RE = RolloutErrors

  // ---- Positions ----

  function Child(value: Value, step: Step): Option<Value> {
    match step
    case Key(name) => if value.Object? && name in value.fields then Some(value.fields[name]) else None
    case Index(i) => if value.Array? && i < |value.items| then Some(value.items[i]) else None
  }

  /** What stands at the end of the steps. */
  function Reach(value: Value, steps: seq<Step>): Option<Value>
    decreases |steps|
  {
    if steps == [] then Some(value)
    else
      match Child(value, steps[0])
      case None => None
      case Some(child) => Reach(child, steps[1..])
  }

  // ---- Images ----

  predicate ImageItem(value: Value) {
    Says(value, ["type"], "input_image")
  }

  predicate HasUrl(value: Value) {
    value.Object? && "image_url" in value.fields && value.fields["image_url"].String?
  }

  function Url(value: Value): string
    requires HasUrl(value)
  {
    value.fields["image_url"].text
  }

  /** An image item whose URL is inline or a placeholder of this program or of its predecessor. */
  predicate InlineItem(value: Value) {
    && ImageItem(value) && HasUrl(value)
    && ("data:image" <= Url(value) || "[" + "context-guardian:inline-image-placeholder " <= Url(value)
        || "[" + "codex-context-janitor:inline-image-placeholder " <= Url(value))
  }

  predicate Unlinked(value: Value) {
    ImageItem(value) && !HasUrl(value)
  }

  lemma PrefixesAre(url: string)
    ensures IsImagePlaceholder(url) <==>
              "[" + "context-guardian:inline-image-placeholder " <= url || "[" + "codex-context-janitor:inline-image-placeholder " <= url
  {
  }

  lemma ItemsIff(value: Value)
    ensures HoldsImage(value) <==> InlineItem(value)
    ensures PassedOver(value) <==> Unlinked(value)
    ensures InlineItem(value) ==> StringAt(value, "image_url") == Some(Url(value)) && value.Object?
  {
    AtOne(value, "type");
    if HasUrl(value) {
      PrefixesAre(Url(value));
    }
  }

  /** No value above the position is an inline image item, or an image item without a URL. */
  predicate Open(value: Value, steps: seq<Step>)
    decreases |steps|
  {
    steps != [] ==>
      && !InlineItem(value) && !Unlinked(value)
      && Child(value, steps[0]).Some? && Open(Child(value, steps[0]).value, steps[1..])
  }

  // ---- What replaces an image ----

  /** A published image is shown by its link, any other inline one by its placeholder, and a placeholder as it is. */
  predicate ShownAs(url: string, path: string, config: Config, text: string) {
    if !("data:image" <= url) then text == url
    else
      match if config.publish.Some? then config.publish.value(url) else None
      case None => text == Placeholder(config.thread, path, url)
      case Some(link) =>
        text == "[context-guardian:published-image-reference thread=" + config.thread + " mime=" + Mime(url) + " removed_bytes="
          + Decimal(ByteLength(url)) + " original_file=" + path + " url=" + link + "]"
  }

  lemma ImageIsShown(url: string, path: string, config: Config)
    ensures ShownAs(url, path, config, ImageText(config, path, url))
  {
    hide Mime;
    hide Decimal;
    hide ByteLength;
  }

  /** What scrubbing makes of the value at one position. */
  ghost predicate ScrubbedTo(before: Value, after: Value, path: string, config: Config) {
    match before
    case String(text) => after == String(ScrubText(text, config.thread, path))
    case Array(items) => after.Array? && |after.items| == |items|
    case Object(fields) =>
      if InlineItem(before) then
        && after.Object? && after.fields.Keys == {"type", "text"} && after.fields["type"] == String("input_text")
        && after.fields["text"].String? && ShownAs(Url(before), path, config, after.fields["text"].text)
      else if Unlinked(before) then after == before
      else after.Object? && after.fields.Keys == fields.Keys
    case _ => after == before
  }

  lemma ScrubHere(value: Value, path: string, config: Config)
    ensures ScrubbedTo(value, ScrubValue(value, path, config), path, config)
  {
    hide InlineItem;
    hide ShownAs;
    hide ImageText;
    ItemsIff(value);
    if InlineItem(value) {
      ImageIsShown(Url(value), path, config);
    }
  }

  lemma ScrubChild(value: Value, step: Step, path: string, config: Config)
    requires !InlineItem(value) && !Unlinked(value) && Child(value, step).Some?
    ensures Child(ScrubValue(value, path, config), step) == Some(ScrubValue(Child(value, step).value, path, config))
  {
    ItemsIff(value);
  }

  /** At every position that scrubbing reaches, the value is replaced as stated, and no other position changes. */
  lemma {:induction false} ScrubAt(value: Value, steps: seq<Step>, path: string, config: Config)
    requires Open(value, steps)
    ensures Reach(value, steps).Some? && Reach(ScrubValue(value, path, config), steps).Some?
    ensures ScrubbedTo(Reach(value, steps).value, Reach(ScrubValue(value, path, config), steps).value, path, config)
    decreases |steps|
  {
    hide ScrubbedTo;
    hide ScrubValue;
    hide InlineItem;
    if steps == [] {
      ScrubHere(value, path, config);
    } else {
      ScrubChild(value, steps[0], path, config);
      ScrubAt(Child(value, steps[0]).value, steps[1..], path, config);
    }
  }

  // ---- Whether anything is scrubbed ----

  /** Something to scrub: text with an inline image, or an inline image item. */
  ghost predicate Marked(value: Value) {
    (value.String? && Contains(value.text, "data:image")) || InlineItem(value)
  }

  ghost predicate MarkedAt(value: Value, steps: seq<Step>) {
    Open(value, steps) && Reach(value, steps).Some? && Marked(Reach(value, steps).value)
  }

  lemma MarkedBelow(value: Value, step: Step, steps: seq<Step>)
    requires !InlineItem(value) && !Unlinked(value) && Child(value, step).Some?
    ensures MarkedAt(value, [step] + steps) <==> MarkedAt(Child(value, step).value, steps)
  {
    hide InlineItem;
    hide Unlinked;
    hide Marked;
    assert ([step] + steps)[1..] == steps;
  }

  lemma {:induction false} FindMarked(value: Value) returns (steps: seq<Step>)
    requires Touches(value)
    ensures MarkedAt(value, steps)
  {
    hide InlineItem;
    ItemsIff(value);
    steps := [];
    match value
    case String(text) => RE.MentionsIff(text, "data:image");
    case Array(items) =>
      var i :| 0 <= i < |items| && Touches(items[i]);
      var rest := FindMarked(items[i]);
      MarkedBelow(value, Index(i), rest);
      steps := [Index(i)] + rest;
    case Object(fields) =>
      if !InlineItem(value) {
        var key :| key in fields && Touches(fields[key]);
        var rest := FindMarked(fields[key]);
        MarkedBelow(value, Key(key), rest);
        steps := [Key(key)] + rest;
      }
    case _ =>
  }

  lemma {:induction false} MarkedTouches(value: Value, steps: seq<Step>)
    requires MarkedAt(value, steps)
    ensures Touches(value)
    decreases |steps|
  {
    hide InlineItem;
    ItemsIff(value);
    if steps == [] {
      if value.String? {
        RE.MentionsIff(value.text, "data:image");
      }
    } else {
      assert steps == [steps[0]] + steps[1..];
      MarkedBelow(value, steps[0], steps[1..]);
      MarkedTouches(Child(value, steps[0]).value, steps[1..]);
    }
  }

  /** Scrubbing counts a value exactly when something at some position it reaches is to be scrubbed. */
  lemma TouchesIff(value: Value)
    ensures Touches(value) <==> exists steps :: MarkedAt(value, steps)
  {
    hide MarkedAt;
    if Touches(value) {
      var steps := FindMarked(value);
    }
    if steps :| MarkedAt(value, steps) {
      MarkedTouches(value, steps);
    }
  }

  // ---- Whether any text holds an inline image ----

  ghost predicate ImageTextAt(value: Value, steps: seq<Step>) {
    var there := Reach(value, steps);
    there.Some? && there.value.String? && Contains(there.value.text, "data:image")
  }

  lemma {:induction false} FindImageText(value: Value) returns (steps: seq<Step>)
    requires HasInlineImage(value)
    ensures ImageTextAt(value, steps)
  {
    steps := [];
    match value
    case String(text) => RE.MentionsIff(text, "data:image");
    case Array(items) =>
      var i :| 0 <= i < |items| && HasInlineImage(items[i]);
      var rest := FindImageText(items[i]);
      steps := [Index(i)] + rest;
      assert steps[1..] == rest;
    case Object(fields) =>
      var key :| key in fields && HasInlineImage(fields[key]);
      var rest := FindImageText(fields[key]);
      steps := [Key(key)] + rest;
      assert steps[1..] == rest;
    case _ =>
  }

  lemma {:induction false} ImageTextFound(value: Value, steps: seq<Step>)
    requires ImageTextAt(value, steps)
    ensures HasInlineImage(value)
    decreases |steps|
  {
    if steps == [] {
      RE.MentionsIff(value.text, "data:image");
    } else {
      ImageTextFound(Child(value, steps[0]).value, steps[1..]);
    }
  }

  /** An output is left to the image step exactly when some text at any position holds an inline image. */
  lemma HasInlineImageIff(value: Value)
    ensures HasInlineImage(value) <==> exists steps :: ImageTextAt(value, steps)
  {
    hide ImageTextAt;
    if HasInlineImage(value) {
      var steps := FindImageText(value);
    }
    if steps :| ImageTextAt(value, steps) {
      ImageTextFound(value, steps);
    }
  }
}
