/**
 Value types of one collision event: jets, muons, missing transverse
 momentum and the event record the selection reads. Only the fields the
 selection cascade and the top-mass reconstruction touch are kept.
 */
module PhysicsObjects {

  /** Four-momentum in collider coordinates (pt, eta, phi, E). */
  datatype FourMomentum = FourMomentum(pt: real, eta: real, phi: real, energy: real)

  /** A jet; `hasBTag` marks a jet identified as coming from a b quark. */
  datatype Jet = Jet(p4: FourMomentum, hasBTag: bool)

  /** A muon with its charge and isolation, both unset (None) until the event builder fills them. */
  datatype Muon = Muon(p4: FourMomentum, charge: Option<int>, iso: Option<real>)

  datatype Option<T> = None | Some(value: T)

  /**
   Missing transverse momentum. `pt` is its magnitude, carried as given:
   the square root of px*px + py*py has no closed form over `real`.
   */
  datatype Met = Met(px: real, py: real, pt: real)

  /** The immutable content of one event, as the event builder hands it over. */
  datatype EventContent = EventContent(
    weight: real,
    jets: seq<Jet>,
    bJets: seq<Jet>,
    muons: seq<Muon>,
    met: Met,
    trigger: map<string, bool>)

  /**
   One event during selection. Its physics content is read-only; the
   reconstructed top mass is the one field the analyzer writes.
   */
  class Event {
    const content: EventContent
    var topMass: real

    constructor (content: EventContent, topMass: real)
      ensures this.content == content && this.topMass == topMass
    {
      this.content := content;
      this.topMass := topMass;
    }
  }
}
