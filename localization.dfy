/**
 * `updateLocalization` of push-metadata.js: the partial-update body sent with the PATCH of
 * one App Store version localization.  Only the metadata fields that hold a non-empty string
 * become attributes; release notes can be held back on request.
 */
module Localization {
  import opened Wrappers
  import opened Metadata
  import Js

  /** The resource type of the PATCH body. */
  const ResourceType: string := "appStoreVersionLocalizations"

  /**
   * `{ data: { type, id, attributes } }`.  `id` is whatever the localization lookup returned
   * as `localization.id`; `attributes` maps each field sent to its text.
   */
  datatype Patch = Patch(kind: string, id: Js.Value, attributes: map<Field, string>)

  /** The path of every localization resource, before its id. */
  const PatchPrefix: string := "/v1/appStoreVersionLocalizations/"

  /** `/v1/appStoreVersionLocalizations/${localizationId}`; `None` is the TypeError of an id that has no text. */
  function PatchPath(localizationId: Js.Value): Option<string>
  {
    match Js.Text(localizationId)
    case None => None
    case Some(t) => Some(PatchPrefix + t)
  }

  /** `metadata.f` is truthy: the field was extracted and is not the empty string. */
  predicate Present(metadata: map<Field, string>, f: Field) {
    f in metadata && metadata[f] != []
  }

  /** The field goes into the PATCH: it is present and it is not release notes held back by `skipWhatsNew`. */
  predicate Sent(metadata: map<Field, string>, skipWhatsNew: bool, f: Field) {
    Present(metadata, f) && !(skipWhatsNew && f == WhatsNew)
  }

  /** The six `if (metadata.f) attributes.f = metadata.f` statements, in the order the script runs them. */
  method UpdateAttributes(metadata: map<Field, string>, skipWhatsNew: bool) returns (attributes: map<Field, string>)
    ensures forall f :: f in attributes <==> Sent(metadata, skipWhatsNew, f)
    ensures forall f :: f in attributes ==> f in metadata && attributes[f] == metadata[f]
    ensures skipWhatsNew ==> WhatsNew !in attributes
  {
    attributes := map[];
    if Present(metadata, Description) {
      attributes := attributes[Description := metadata[Description]];
    }
    if Present(metadata, Keywords) {
      attributes := attributes[Keywords := metadata[Keywords]];
    }
    if Present(metadata, WhatsNew) && !skipWhatsNew {
      attributes := attributes[WhatsNew := metadata[WhatsNew]];
    }
    if Present(metadata, PromotionalText) {
      attributes := attributes[PromotionalText := metadata[PromotionalText]];
    }
    if Present(metadata, SupportUrl) {
      attributes := attributes[SupportUrl := metadata[SupportUrl]];
    }
    if Present(metadata, MarketingUrl) {
      attributes := attributes[MarketingUrl := metadata[MarketingUrl]];
    }
    forall f ensures f in attributes <==> Sent(metadata, skipWhatsNew, f) {
      match f
      case PromotionalText =>
      case Description =>
      case Keywords =>
      case WhatsNew =>
      case SupportUrl =>
      case MarketingUrl =>
    }
  }

  /**
   * `updateLocalization(localizationId, metadata, skipWhatsNew)` up to the request it hands
   * to `apiRequest`: the PATCH path and body.  The body names the localization of the path,
   * and its attributes are exactly the present fields, with release notes left out on request.
   * A `path` of `None` is the TypeError the template throws for an id that has no text: the
   * call then rejects before any request is made.
   */
  method UpdateLocalization(localizationId: Js.Value, metadata: map<Field, string>, skipWhatsNew: bool)
    returns (path: Option<string>, body: Patch)
    ensures path.None? <==> Js.Text(body.id).None?
    ensures path.Some? ==> path.value == PatchPrefix + Js.Text(body.id).value
    ensures body.kind == "appStoreVersionLocalizations" && body.id == localizationId
    ensures forall f :: f in body.attributes <==> Sent(metadata, skipWhatsNew, f)
    ensures forall f :: f in body.attributes ==> f in metadata && body.attributes[f] == metadata[f]
    ensures skipWhatsNew ==> WhatsNew !in body.attributes
  {
    var attributes := UpdateAttributes(metadata, skipWhatsNew);
    body := Patch(ResourceType, localizationId, attributes);
    path := PatchPath(localizationId);
  }
}
