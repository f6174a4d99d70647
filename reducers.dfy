/** The two one-action Redux reducers: each answers its own action type by
    copying the state with one property replaced, and returns every other
    action's state untouched. */
module Reducers {
  import opened Options
  import opened JsObject

  // ---------------------------------------------------------------------
  // circleColorReducer

  const SetCircleColor := "SET_CIRCLE_COLOR"
  const CircleColorKey := "circleColor"

  /** `skyBlue`, imported from the application's style sheet. */
  const SkyBlue := StyleConst("skyBlue")

  const InitialCircleColor: Obj := map[CircleColorKey := SkyBlue]

  /** `circleColorReducer(state = initialCircleColor, action)`. */
  function CircleColorReducer(state: Option<Obj>, action: Action): (r: Obj)
    ensures action.actionType == SetCircleColor ==>
      CircleColorKey in r && r[CircleColorKey] == action.payload
    ensures action.actionType == SetCircleColor ==>
      forall k :: k != CircleColorKey ==>
        (k in r <==> k in OrDefault(state, InitialCircleColor)) &&
        (k in r ==> r[k] == OrDefault(state, InitialCircleColor)[k])
    ensures action.actionType != SetCircleColor ==>
      r == OrDefault(state, InitialCircleColor)
  {
    var s := OrDefault(state, InitialCircleColor);
    if action.actionType == SetCircleColor then SpreadWith(s, CircleColorKey, action.payload)
    else s
  }

  /** With no state yet, any action other than SET_CIRCLE_COLOR yields the
      initial state, whose colour is sky blue. */
  lemma CircleColorDefault(action: Action)
    requires action.actionType != SetCircleColor
    ensures CircleColorReducer(None, action) == map[CircleColorKey := SkyBlue]
  {
  }

  /** Dispatching the same SET_CIRCLE_COLOR twice is the same as once. */
  lemma CircleColorIdempotent(state: Option<Obj>, action: Action)
    requires action.actionType == SetCircleColor
    ensures CircleColorReducer(Some(CircleColorReducer(state, action)), action)
         == CircleColorReducer(state, action)
  {
  }

  // ---------------------------------------------------------------------
  // resetClicksReducer

  const SetResetClicks := "SET_RESET_CLICKS"
  const ResetClicksKey := "resetClicks"

  const InitialResetClicks: Obj := map[ResetClicksKey := Num(0)]

  /** `resetClicksReducer(state = initialResetClicks, action)`. */
  function ResetClicksReducer(state: Option<Obj>, action: Action): (r: Obj)
    ensures action.actionType == SetResetClicks ==>
      ResetClicksKey in r && r[ResetClicksKey] == action.payload
    ensures action.actionType == SetResetClicks ==>
      forall k :: k != ResetClicksKey ==>
        (k in r <==> k in OrDefault(state, InitialResetClicks)) &&
        (k in r ==> r[k] == OrDefault(state, InitialResetClicks)[k])
    ensures action.actionType != SetResetClicks ==>
      r == OrDefault(state, InitialResetClicks)
  {
    var s := OrDefault(state, InitialResetClicks);
    if action.actionType == SetResetClicks then SpreadWith(s, ResetClicksKey, action.payload)
    else s
  }

  /** With no state yet, any other action yields `{ resetClicks: 0 }`. */
  lemma ResetClicksDefault(action: Action)
    requires action.actionType != SetResetClicks
    ensures ResetClicksReducer(None, action) == map[ResetClicksKey := Num(0)]
  {
  }

  /** Two successive SET_RESET_CLICKS actions: the second payload wins and
      the first leaves no trace. */
  lemma ResetClicksLastWriteWins(state: Option<Obj>, first: Action, second: Action)
    requires first.actionType == SetResetClicks && second.actionType == SetResetClicks
    ensures ResetClicksReducer(Some(ResetClicksReducer(state, first)), second)
         == ResetClicksReducer(state, second)
  {
  }
}
