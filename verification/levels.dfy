/** The severity and priority scale shared by insights and action items. */
module Levels {

  datatype Level = Info | Low | Medium | High

  /** The status/priority string the source attaches. */
  function Name(l: Level): string {
    match l
    case Info => "info"
    case Low => "low"
    case Medium => "medium"
    case High => "high"
  }

  /** The graded levels: complexity tiers and action priorities never take `Info`. */
  type Grade = l: Level | !l.Info? witness Low

  /** The capitalised tier name the complexity insight prints first ("High complexity - ..."). */
  function GradeName(g: Grade): string {
    match g
    case Low => "Low"
    case Medium => "Medium"
    case High => "High"
  }

  /** The order of the scale: info, then low, medium, high. */
  function Weight(l: Level): nat {
    match l
    case Info => 0
    case Low => 1
    case Medium => 2
    case High => 3
  }
}
