/** The Tailwind class strings the two views use for status badges and
    fuel-level text. */
module Badges {
  const GreenBadge: string := "bg-green-100 text-green-800 border-green-200"
  const YellowBadge: string := "bg-yellow-100 text-yellow-800 border-yellow-200"
  const GrayBadge: string := "bg-gray-100 text-gray-800 border-gray-200"

  const GreenText: string := "text-green-600"
  const YellowText: string := "text-yellow-600"
  const RedText: string := "text-red-600"
}
